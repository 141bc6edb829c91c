/** The HTML alternative of a guest mail and the stripper that reads such HTML back as plain text. */
module EmailHtml {
  import opened Wrappers
  import opened Strings
  import opened BodyFormat
  import opened BodyReflow

  /** The house footer and the tag that opens its paragraph. */
  datatype Footer = Footer(text: string, tag: string)

  const FOOTER_STYLE: string := "style=\"color:#666;font-size:12px;\""
  const STAY_FOOTER: Footer := Footer("Managed by stay.hr \U{2014} https://stay.hr/", "<p " + FOOTER_STYLE + ">")

  // ---------------------------------------------------------------- escaping

  function EscapeChar(c: char): string {
    match c
    case '&' => "&amp;"
    case '<' => "&lt;"
    case '>' => "&gt;"
    case '\"' => "&quot;"
    case '\'' => "&#x27;"
    case _ => [c]
  }

  /** `html.escape` */
  function Escape(s: string): (r: string)
    ensures '<' !in r && '>' !in r
  {
    if s == "" then "" else EscapeChar(s[0]) + Escape(s[1..])
  }

  /** One character reference at the start of a text: how much of it is read and what it stands for. */
  datatype Reference = Reference(size: nat, meaning: string)

  /** What the standard table makes of a text that starts with `&`, apart from the five references
      that escaping writes; any table at all. */
  type References = string -> Option<Reference>

  function ReadReference(table: References, s: string): (r: Option<Reference>)
    ensures r.Some? ==> 0 < r.value.size <= |s|
  {
    if "&amp;" <= s then Some(Reference(5, "&"))
    else if "&lt;" <= s then Some(Reference(4, "<"))
    else if "&gt;" <= s then Some(Reference(4, ">"))
    else if "&quot;" <= s then Some(Reference(6, "\""))
    else if "&#x27;" <= s then Some(Reference(6, "'"))
    else
      match table(s)
      case Some(r) => if 0 < r.size <= |s| then Some(r) else None
      case None => None
  }

  /** `html.unescape` */
  function Unescape(table: References, s: string): string
    decreases |s|
  {
    if s == "" then ""
    else if s[0] != '&' then [s[0]] + Unescape(table, s[1..])
    else
      match ReadReference(table, s)
      case Some(r) => r.meaning + Unescape(table, s[r.size..])
      case None => [s[0]] + Unescape(table, s[1..])
  }

  // ---------------------------------------------------------------- the three tag expressions

  /** How many characters the expression matches at the start of a text. */
  type Matcher = string -> Option<nat>

  /** `re.sub` */
  function Sub(m: Matcher, replacement: string, s: string): string
    decreases |s|
  {
    if s == "" then ""
    else
      match m(s)
      case Some(n) =>
        if 0 < n <= |s| then replacement + Sub(m, replacement, s[n..]) else [s[0]] + Sub(m, replacement, s[1..])
      case None => [s[0]] + Sub(m, replacement, s[1..])
  }

  // The expression \s* at position i.
  function SkipSpace(s: string, i: nat): (j: nat)
    requires i <= |s|
    ensures i <= j <= |s| && (j < |s| ==> !IsSpace(s[j]))
    decreases |s| - i
  {
    if i < |s| && IsSpace(s[i]) then SkipSpace(s, i + 1) else i
  }

  predicate CharAt(s: string, i: nat, c: char) {
    i < |s| && LowerChar(s[i]) == c
  }

  // The expression <\s*br\s*/?\s*>, ignoring case.
  function MatchBreak(s: string): (r: Option<nat>)
    ensures r.Some? ==> s != "" && s[0] == '<'
  {
    if !CharAt(s, 0, '<') then None
    else
      var i := SkipSpace(s, 1);
      if !CharAt(s, i, 'b') || !CharAt(s, i + 1, 'r') then None
      else
        var j := SkipSpace(s, i + 2);
        var k := SkipSpace(s, if CharAt(s, j, '/') then j + 1 else j);
        if CharAt(s, k, '>') then Some(k + 1) else None
  }

  /** The length of `p|div|tr|li|h[1-6]` at position i, ignoring case; 0 for none. */
  function BlockName(s: string, i: nat): (n: nat)
    ensures n > 0 ==> i + n <= |s|
  {
    if CharAt(s, i, 'p') then 1
    else if CharAt(s, i, 'd') && CharAt(s, i + 1, 'i') && CharAt(s, i + 2, 'v') then 3
    else if CharAt(s, i, 't') && CharAt(s, i + 1, 'r') then 2
    else if CharAt(s, i, 'l') && CharAt(s, i + 1, 'i') then 2
    else if CharAt(s, i, 'h') && i + 1 < |s| && '1' <= s[i + 1] <= '6' then 2
    else 0
  }

  // The expression </\s*(p|div|tr|li|h[1-6])\s*> , ignoring case.
  function MatchBlockEnd(s: string): (r: Option<nat>)
    ensures r.Some? ==> s != "" && s[0] == '<'
  {
    if !CharAt(s, 0, '<') || !CharAt(s, 1, '/') then None
    else
      var i := SkipSpace(s, 2);
      var n := BlockName(s, i);
      if n == 0 then None
      else
        var k := SkipSpace(s, i + n);
        if CharAt(s, k, '>') then Some(k + 1) else None
  }

  function FindChar(s: string, i: nat, c: char): (j: nat)
    requires i <= |s|
    ensures i <= j <= |s| && c !in s[i..j] && (j < |s| ==> s[j] == c)
    decreases |s| - i
  {
    if i < |s| && s[i] != c then FindChar(s, i + 1, c) else i
  }

  // The expression <[^>]+> .
  function MatchTag(s: string): (r: Option<nat>)
    ensures r.Some? ==> s != "" && s[0] == '<'
  {
    if !CharAt(s, 0, '<') then None
    else
      var j := FindChar(s, 1, '>');
      if 1 < j < |s| then Some(j + 1) else None
  }

  /** _html_to_plain */
  function HtmlToPlain(table: References, s: string): string {
    if '<' !in s || '>' !in s then s
    else Unescape(table, Sub(MatchTag, "", Sub(MatchBlockEnd, "\n\n", Sub(MatchBreak, "\n", s))))
  }

  // ---------------------------------------------------------------- the printer

  /** `"<br>\n".join(html.escape(line) for line in block.split("\n"))` as a paragraph. */
  function ParagraphHtml(block: string): string {
    var inner := Join("<br>\n", EscapeAll(Lines(block)));
    if inner != "" then "<p>" + inner + "</p>" else ""
  }

  function EscapeAll(lines: seq<string>): (r: seq<string>)
    ensures |r| == |lines|
  {
    if lines == [] then [] else [Escape(lines[0])] + EscapeAll(lines[1..])
  }

  function FooterHtml(f: Footer): string {
    f.tag + Escape(f.text) + "</p>"
  }

  /** What one paragraph appends to the parts. */
  function ParagraphParts(f: Footer, paragraph: string): seq<string> {
    if Strip(paragraph) == f.text then [FooterHtml(f)]
    else if EndsWith(paragraph, f.text) && paragraph != f.text then
      var main := StripRight(paragraph[..|paragraph| - |f.text|]);
      (if main != "" then [ParagraphHtml(main)] else []) + [FooterHtml(f)]
    else if ParagraphHtml(paragraph) != "" then [ParagraphHtml(paragraph)]
    else []
  }

  predicate EndsWith(s: string, end: string) {
    |end| <= |s| && s[|s| - |end|..] == end
  }

  function AllParts(f: Footer, paragraphs: seq<string>): seq<string> {
    if paragraphs == [] then []
    else AllParts(f, paragraphs[..|paragraphs| - 1]) + ParagraphParts(f, paragraphs[|paragraphs| - 1])
  }

  /** The end of the whitespace run from i on. */
  function LastBreak(s: string, i: nat, j: nat): (r: Option<nat>)
    requires i < j <= |s|
    ensures r.Some? ==> i < r.value < |s| && s[r.value] == '\n' && forall k :: j <= k <= r.value ==> IsSpace(s[k])
    decreases |s| - j
  {
    if j == |s| || !IsSpace(s[j]) then None
    else
      var later := LastBreak(s, i, j + 1);
      if later.Some? then later else if s[j] == '\n' then Some(j) else None
  }

  // The expression \n\s*\n at the start of a text.
  function MatchBlankLine(s: string): (r: Option<nat>)
    ensures r.Some? ==> 0 < r.value <= |s| && AllSpace(s[..r.value])
  {
    if s == "" || s[0] != '\n' then None
    else
      match LastBreak(s, 0, 1)
      case None => None
      case Some(j) => Some(j + 1)
  }

  // re.split at \n\s*\n .
  function SplitBlankLines(s: string): (r: seq<string>)
    ensures |r| > 0
    decreases |s|
  {
    if s == "" then [""]
    else
      match MatchBlankLine(s)
      case Some(n) => [""] + SplitBlankLines(s[n..])
      case None =>
        var rest := SplitBlankLines(s[1..]);
        [[s[0]] + rest[0]] + rest[1..]
  }

  /** The stripped pieces that are not empty. */
  function Stripped(pieces: seq<string>): seq<string> {
    if pieces == [] then []
    else (if Strip(pieces[0]) != "" then [Strip(pieces[0])] else []) + Stripped(pieces[1..])
  }

  function Paragraphs(normalized: string): seq<string> {
    var paragraphs := Stripped(SplitBlankLines(normalized));
    if paragraphs == [] then [normalized] else paragraphs
  }

  /** render_guest_message_email_html, whose footer is STAY_FOOTER. */
  function Render(sp: Splitters, f: Footer, body: string): string
    requires CutsAtSpace(sp)
  {
    RenderNormalized(f, Outbound(sp, body))
  }

  function RenderNormalized(f: Footer, normalized: string): string {
    if normalized == "" then "" else Join("\n", AllParts(f, Paragraphs(normalized)))
  }

  // ---------------------------------------------------------------- rendered text as pieces

  /** What rendered HTML is made of. */
  datatype Piece = Open | FooterOpen(tag: string) | Close | Break | Gap | Esc(text: string)

  /** The piece before any pass of the stripper and after its first, second, third and last. */
  function Show(stage: nat, p: Piece): string {
    match p
    case Open => if stage < 3 then "<p>" else ""
    case FooterOpen(tag) => if stage < 3 then tag else ""
    case Close => if stage < 2 then "</p>" else "\n\n"
    case Break => if stage < 1 then "<br>" else "\n"
    case Gap => "\n"
    case Esc(t) => if stage < 4 then Escape(t) else t
  }

  function Flat(stage: nat, ps: seq<Piece>): string {
    if ps == [] then "" else Show(stage, ps[0]) + Flat(stage, ps[1..])
  }

  function TextInk(ps: seq<Piece>): string {
    if ps == [] then "" else (if ps[0].Esc? then Ink(ps[0].text) else "") + TextInk(ps[1..])
  }

  lemma FlatCons(stage: nat, p: Piece, ps: seq<Piece>)
    ensures Flat(stage, [p] + ps) == Show(stage, p) + Flat(stage, ps)
    ensures TextInk([p] + ps) == (if p.Esc? then Ink(p.text) else "") + TextInk(ps)
  {
    assert ([p] + ps)[1..] == ps;
  }

  lemma Around<T>(a: seq<T>, b: seq<T>, c: seq<T>)
    ensures a + (b + c) == a + b + c
  {
  }

  lemma FlatConsConcat(stage: nat, p: Piece, rest: seq<Piece>, b: seq<Piece>)
    requires Flat(stage, rest + b) == Flat(stage, rest) + Flat(stage, b) &&
             TextInk(rest + b) == TextInk(rest) + TextInk(b)
    ensures Flat(stage, [p] + (rest + b)) == Flat(stage, [p] + rest) + Flat(stage, b)
    ensures TextInk([p] + (rest + b)) == TextInk([p] + rest) + TextInk(b)
  {
    FlatCons(stage, p, rest);
    FlatCons(stage, p, rest + b);
    Around(Show(stage, p), Flat(stage, rest), Flat(stage, b));
    Around(if p.Esc? then Ink(p.text) else "", TextInk(rest), TextInk(b));
  }

  /** A non-empty list, taken apart. */
  lemma Apart(a: seq<Piece>, b: seq<Piece>) returns (p: Piece, rest: seq<Piece>)
    requires a != []
    ensures |rest| < |a| && a == [p] + rest && a + b == [p] + (rest + b)
  {
    p, rest := a[0], a[1..];
  }

  lemma FlatOfNone(stage: nat, b: seq<Piece>)
    ensures Flat(stage, [] + b) == Flat(stage, []) + Flat(stage, b) && TextInk([] + b) == TextInk([]) + TextInk(b)
  {
    NoneBefore(b);
    NoneBefore(Flat(stage, b));
    NoneBefore(TextInk(b));
  }

  lemma NoneBefore<T>(b: seq<T>)
    ensures [] + b == b
  {
  }

  lemma {:induction false} FlatConcat(stage: nat, a: seq<Piece>, b: seq<Piece>)
    ensures Flat(stage, a + b) == Flat(stage, a) + Flat(stage, b) && TextInk(a + b) == TextInk(a) + TextInk(b)
    decreases |a|
  {
    if a == [] {
      FlatOfNone(stage, b);
    } else {
      var p, rest := Apart(a, b);
      FlatConcat(stage, rest, b);
      FlatConsConcat(stage, p, rest, b);
    }
  }

  // ---------------------------------------------------------------- the passes of the stripper

  /** The expression only matches at a `<`. */
  ghost predicate AtTag(m: Matcher) {
    forall s :: m(s).Some? ==> s != "" && s[0] == '<'
  }

  lemma SubCons(m: Matcher, rep: string, c: char, rest: string)
    requires AtTag(m) && c != '<'
    ensures Sub(m, rep, [c] + rest) == [c] + Sub(m, rep, rest)
  {
    assert ([c] + rest)[1..] == rest;
  }

  lemma {:induction false} SubClean(m: Matcher, rep: string, a: string, b: string)
    requires AtTag(m) && '<' !in a
    ensures Sub(m, rep, a + b) == a + Sub(m, rep, b)
    decreases |a|
  {
    if a == "" {
      NoneBefore(b);
      NoneBefore(Sub(m, rep, b));
    } else {
      var c, rest := SplitFirst(a);
      SubClean(m, rep, rest, b);
      SubCons(m, rep, c, rest + b);
      OneBefore(c, rest, b);
      OneBefore(c, rest, Sub(m, rep, b));
    }
  }

  lemma OneBefore(c: char, rest: string, b: string)
    ensures [c] + rest + b == [c] + (rest + b)
  {
  }

  lemma SubMissed(m: Matcher, rep: string, tag: string, b: string)
    requires AtTag(m) && tag != "" && '<' !in tag[1..] && m(tag + b).None?
    ensures Sub(m, rep, tag + b) == tag + Sub(m, rep, b)
  {
    assert (tag + b)[1..] == tag[1..] + b;
    SubClean(m, rep, tag[1..], b);
    assert tag == [tag[0]] + tag[1..];
  }

  lemma SubHit(m: Matcher, rep: string, tag: string, b: string)
    requires tag != "" && m(tag + b) == Some(|tag|)
    ensures Sub(m, rep, tag + b) == rep + Sub(m, rep, b)
  {
    assert (tag + b)[|tag|..] == b;
  }

  /** A tag whose name starts with p or a slash. */
  ghost predicate ParagraphTag(tag: string) {
    |tag| > 2 && tag[0] == '<' && (tag[1] == 'p' || tag[1] == '/') && '<' !in tag[1..] &&
    tag[|tag| - 1] == '>' && '>' !in tag[..|tag| - 1]
  }

  /** The footer's opening tag looks like one. */
  ghost predicate TagOk(p: Piece) {
    p.FooterOpen? ==> ParagraphTag(p.tag) && p.tag[1] == 'p'
  }

  ghost predicate TagsOk(ps: seq<Piece>) {
    forall k :: 0 <= k < |ps| ==> TagOk(ps[k])
  }

  lemma TheTags()
    ensures ParagraphTag("<p>") && ParagraphTag("</p>")
  {
  }

  lemma BreakMisses(tag: string, b: string)
    requires ParagraphTag(tag)
    ensures Sub(MatchBreak, "\n", tag + b) == tag + Sub(MatchBreak, "\n", b)
  {
    assert (tag + b)[1] == tag[1];
    SubMissed(MatchBreak, "\n", tag, b);
  }

  lemma BreakHits(b: string)
    ensures Sub(MatchBreak, "\n", "<br>" + b) == "\n" + Sub(MatchBreak, "\n", b)
  {
    var s := "<br>" + b;
    assert s[0] == '<' && s[1] == 'b' && s[2] == 'r' && s[3] == '>';
    SubHit(MatchBreak, "\n", "<br>", b);
  }

  lemma BreakStep(p: Piece, b: string)
    requires TagOk(p)
    ensures Sub(MatchBreak, "\n", Show(0, p) + b) == Show(1, p) + Sub(MatchBreak, "\n", b)
  {
    TheTags();
    match p
    case Break => BreakHits(b);
    case Open => BreakMisses("<p>", b);
    case FooterOpen(tag) => BreakMisses(tag, b);
    case Close => BreakMisses("</p>", b);
    case Gap => SubClean(MatchBreak, "\n", "\n", b);
    case Esc(t) => SubClean(MatchBreak, "\n", Escape(t), b);
  }

  lemma BlockEndMisses(tag: string, b: string)
    requires ParagraphTag(tag) && tag[1] == 'p'
    ensures Sub(MatchBlockEnd, "\n\n", tag + b) == tag + Sub(MatchBlockEnd, "\n\n", b)
  {
    assert (tag + b)[1] == tag[1];
    SubMissed(MatchBlockEnd, "\n\n", tag, b);
  }

  lemma BlockEndHits(b: string)
    ensures Sub(MatchBlockEnd, "\n\n", "</p>" + b) == "\n\n" + Sub(MatchBlockEnd, "\n\n", b)
  {
    var s := "</p>" + b;
    assert s[0] == '<' && s[1] == '/' && s[2] == 'p' && s[3] == '>';
    SubHit(MatchBlockEnd, "\n\n", "</p>", b);
  }

  lemma BlockEndStep(p: Piece, b: string)
    requires TagOk(p)
    ensures Sub(MatchBlockEnd, "\n\n", Show(1, p) + b) == Show(2, p) + Sub(MatchBlockEnd, "\n\n", b)
  {
    TheTags();
    match p
    case Close => BlockEndHits(b);
    case Open => BlockEndMisses("<p>", b);
    case FooterOpen(tag) => BlockEndMisses(tag, b);
    case Break => SubClean(MatchBlockEnd, "\n\n", "\n", b);
    case Gap => SubClean(MatchBlockEnd, "\n\n", "\n", b);
    case Esc(t) => SubClean(MatchBlockEnd, "\n\n", Escape(t), b);
  }

  lemma {:induction false} FoundAt(s: string, i: nat, j: nat, c: char)
    requires i <= j < |s| && c !in s[i..j] && s[j] == c
    ensures FindChar(s, i, c) == j
    decreases j - i
  {
    if i < j {
      assert s[i] == s[i..j][0] && s[i + 1..j] == s[i..j][1..];
      FoundAt(s, i + 1, j, c);
    }
  }

  lemma TagHits(tag: string, b: string)
    requires ParagraphTag(tag)
    ensures Sub(MatchTag, "", tag + b) == "" + Sub(MatchTag, "", b)
  {
    assert (tag + b)[1..|tag| - 1] == tag[..|tag| - 1][1..];
    FoundAt(tag + b, 1, |tag| - 1, '>');
    SubHit(MatchTag, "", tag, b);
  }

  lemma TagStep(p: Piece, b: string)
    requires TagOk(p)
    ensures Sub(MatchTag, "", Show(2, p) + b) == Show(3, p) + Sub(MatchTag, "", b)
  {
    TheTags();
    match p
    case Open => TagHits("<p>", b);
    case FooterOpen(tag) => TagHits(tag, b);
    case Close => SubClean(MatchTag, "", "\n\n", b);
    case Break => SubClean(MatchTag, "", "\n", b);
    case Gap => SubClean(MatchTag, "", "\n", b);
    case Esc(t) => SubClean(MatchTag, "", Escape(t), b);
  }

  lemma ReadEscaped(table: References, c: char, b: string)
    requires |EscapeChar(c)| > 1
    ensures ReadReference(table, EscapeChar(c) + b) == Some(Reference(|EscapeChar(c)|, [c]))
  {
    var s := EscapeChar(c) + b;
    assert s[1] == EscapeChar(c)[1];
    assert EscapeChar(c) <= s;
  }

  lemma UnescapeOne(table: References, c: char, b: string)
    ensures Unescape(table, EscapeChar(c) + b) == [c] + Unescape(table, b)
  {
    var s := EscapeChar(c) + b;
    assert s[|EscapeChar(c)|..] == b;
    if |EscapeChar(c)| > 1 {
      ReadEscaped(table, c, b);
      assert s[0] == '&';
    }
  }

  lemma EscapeHead(t: string, b: string)
    requires t != ""
    ensures Escape(t) + b == EscapeChar(t[0]) + (Escape(t[1..]) + b)
  {
  }

  lemma HeadAndTail(t: string, u: string)
    requires t != ""
    ensures [t[0]] + (t[1..] + u) == t + u
  {
  }

  lemma UnescapeCons(table: References, s: string, c: char, x: string, y: string)
    requires s == EscapeChar(c) + x && Unescape(table, x) == y
    ensures Unescape(table, s) == [c] + y
  {
    UnescapeOne(table, c, x);
  }

  /** Unescaping undoes escaping, whatever follows. */
  lemma {:induction false} UnescapeEscaped(table: References, t: string, b: string)
    ensures Unescape(table, Escape(t) + b) == t + Unescape(table, b)
  {
    if t == "" {
      assert Escape(t) + b == b;
    } else {
      UnescapeEscaped(table, t[1..], b);
      UnescapeHead(table, t, b, Escape(t[1..]) + b, Unescape(table, b));
    }
  }

  lemma UnescapeHead(table: References, t: string, b: string, x: string, u: string)
    requires t != "" && x == Escape(t[1..]) + b && Unescape(table, x) == t[1..] + u
    ensures Unescape(table, Escape(t) + b) == t + u
  {
    EscapeHead(t, b);
    HeadAndTail(t, u);
    UnescapeCons(table, Escape(t) + b, t[0], x, t[1..] + u);
  }

  lemma UnescapeOther(table: References, c: char, rest: string)
    requires c != '&'
    ensures Unescape(table, [c] + rest) == [c] + Unescape(table, rest)
  {
    assert ([c] + rest)[1..] == rest;
  }

  lemma {:induction false} UnescapePlain(table: References, a: string, b: string)
    requires '&' !in a
    ensures Unescape(table, a + b) == a + Unescape(table, b)
    decreases |a|
  {
    if a == "" {
      NoneBefore(b);
      NoneBefore(Unescape(table, b));
    } else {
      var c, rest := SplitFirst(a);
      UnescapePlain(table, rest, b);
      UnescapeOther(table, c, rest + b);
      OneBefore(c, rest, b);
      OneBefore(c, rest, Unescape(table, b));
    }
  }

  lemma UnescapeStep(table: References, p: Piece, b: string)
    ensures Unescape(table, Show(3, p) + b) == Show(4, p) + Unescape(table, b)
  {
    if p.Esc? {
      UnescapeEscaped(table, p.text, b);
    } else {
      UnescapePlain(table, Show(3, p), b);
    }
  }

  /** The four passes, one after the other, over any pieces. */
  lemma {:induction false} Passes(table: References, ps: seq<Piece>)
    requires TagsOk(ps)
    ensures Sub(MatchBreak, "\n", Flat(0, ps)) == Flat(1, ps)
    ensures Sub(MatchBlockEnd, "\n\n", Flat(1, ps)) == Flat(2, ps)
    ensures Sub(MatchTag, "", Flat(2, ps)) == Flat(3, ps)
    ensures Unescape(table, Flat(3, ps)) == Flat(4, ps)
  {
    if ps != [] {
      assert TagOk(ps[0]);
      Passes(table, ps[1..]);
      BreakStep(ps[0], Flat(0, ps[1..]));
      BlockEndStep(ps[0], Flat(1, ps[1..]));
      TagStep(ps[0], Flat(2, ps[1..]));
      UnescapeStep(table, ps[0], Flat(3, ps[1..]));
    }
  }

  lemma {:induction false} InkOfFlat(ps: seq<Piece>)
    ensures Ink(Flat(4, ps)) == TextInk(ps)
  {
    if ps != [] {
      InkOfFlat(ps[1..]);
      InkConcat(Show(4, ps[0]), Flat(4, ps[1..]));
      if !ps[0].Esc? { InkOfSpace(Show(4, ps[0])); }
    }
  }

  /** Rendered pieces: the first one opens a paragraph. */
  ghost predicate Rendered(ps: seq<Piece>) {
    TagsOk(ps) && ps != [] && (ps[0].Open? || ps[0].FooterOpen?)
  }

  /** All passes over rendered pieces. */
  lemma StrippedIsFlat(table: References, ps: seq<Piece>)
    requires Rendered(ps)
    ensures HtmlToPlain(table, Flat(0, ps)) == Flat(4, ps)
  {
    TheTags();
    var tag := Show(0, ps[0]);
    var s := Flat(0, ps);
    assert tag[0] == '<' && tag[|tag| - 1] == '>';
    assert s[0] == tag[0] && s[|tag| - 1] == tag[|tag| - 1];
    Passes(table, ps);
  }

  lemma StrippedPieces(table: References, ps: seq<Piece>)
    requires Rendered(ps)
    ensures Ink(HtmlToPlain(table, Flat(0, ps))) == TextInk(ps)
  {
    StrippedIsFlat(table, ps);
    InkOfFlat(ps);
  }

  // ---------------------------------------------------------------- the rendered pieces

  function LinePieces(lines: seq<string>): seq<Piece> {
    if lines == [] then []
    else if |lines| == 1 then [Esc(lines[0])]
    else [Esc(lines[0])] + ([Break] + ([Gap] + LinePieces(lines[1..])))
  }

  function ParagraphPieces(block: string): seq<Piece> {
    [Open] + (LinePieces(Lines(block)) + [Close])
  }

  function FooterPieces(f: Footer): seq<Piece> {
    [FooterOpen(f.tag)] + ([Esc(f.text)] + [Close])
  }

  lemma FlatOne(stage: nat, p: Piece)
    ensures Flat(stage, [p]) == Show(stage, p) && TextInk([p]) == if p.Esc? then Ink(p.text) else ""
  {
    assert [p] + [] == [p];
    FlatCons(stage, p, []);
  }

  lemma BreakShown(rest: seq<Piece>)
    ensures Flat(0, [Break] + ([Gap] + rest)) == "<br>\n" + Flat(0, rest) &&
            TextInk([Break] + ([Gap] + rest)) == TextInk(rest)
  {
    FlatCons(0, Gap, rest);
    FlatCons(0, Break, [Gap] + rest);
    assert "<br>" + ("\n" + Flat(0, rest)) == "<br>\n" + Flat(0, rest);
  }

  lemma LineShown(line: string, rest: seq<Piece>, shown: string)
    requires shown == Flat(0, rest)
    ensures Flat(0, [Esc(line)] + ([Break] + ([Gap] + rest))) == Escape(line) + "<br>\n" + shown
    ensures TextInk([Esc(line)] + ([Break] + ([Gap] + rest))) == Ink(line) + TextInk(rest)
  {
    var more := [Break] + ([Gap] + rest);
    BreakShown(rest);
    FlatCons(0, Esc(line), more);
    Around(Escape(line), "<br>\n", shown);
  }

  lemma {:induction false} LinesAreShown(lines: seq<string>)
    ensures Flat(0, LinePieces(lines)) == Join("<br>\n", EscapeAll(lines)) && TextInk(LinePieces(lines)) == InkOf(lines)
    ensures TagsOk(LinePieces(lines))
  {
    if |lines| == 1 {
      FlatOne(0, Esc(lines[0]));
      InkOfOne(lines[0]);
      assert lines == [lines[0]];
    } else if |lines| > 1 {
      LinesAreShown(lines[1..]);
      LineShown(lines[0], LinePieces(lines[1..]), Flat(0, LinePieces(lines[1..])));
      assert EscapeAll(lines) == [Escape(lines[0])] + EscapeAll(lines[1..]);
      JoinCons("<br>\n", Escape(lines[0]), EscapeAll(lines[1..]));
    }
  }

  lemma {:induction false} JoinOfLines(s: string)
    ensures Join("\n", Lines(s)) == s
  {
    if s != "" {
      JoinOfLines(s[1..]);
      var rest := Lines(s[1..]);
      assert s == [s[0]] + s[1..];
      if s[0] == '\n' {
        JoinCons("\n", "", rest);
      } else if |rest| == 1 {
        assert [[s[0]] + rest[0]] + rest[1..] == [[s[0]] + rest[0]];
      } else {
        assert rest == [rest[0]] + rest[1..];
        JoinCons("\n", rest[0], rest[1..]);
        JoinCons("\n", [s[0]] + rest[0], rest[1..]);
      }
    }
  }

  lemma InnerIsText(block: string)
    requires block != ""
    ensures Join("<br>\n", EscapeAll(Lines(block))) != ""
  {
    var lines := Lines(block);
    if |lines| == 1 {
      JoinOfLines(block);
      assert lines[0] == block;
      EscapeIsText(block);
    }
  }

  lemma EscapeIsText(s: string)
    requires s != ""
    ensures Escape(s) != ""
  {
  }

  /** A paragraph: an opening tag, what is inside, and the closing tag. */
  lemma WrapShown(open: Piece, inner: seq<Piece>, shown: string)
    requires !open.Esc? && TagOk(open) && TagsOk(inner) && shown == Flat(0, inner)
    ensures Flat(0, [open] + (inner + [Close])) == Show(0, open) + shown + "</p>"
    ensures TextInk([open] + (inner + [Close])) == TextInk(inner) && TagsOk([open] + (inner + [Close]))
  {
    FlatOne(0, Close);
    FlatConcat(0, inner, [Close]);
    FlatCons(0, open, inner + [Close]);
    Around(Show(0, open), shown, "</p>");
  }

  lemma ParagraphIsShown(block: string)
    requires block != ""
    ensures ParagraphHtml(block) == Flat(0, ParagraphPieces(block)) && TextInk(ParagraphPieces(block)) == Ink(block)
    ensures ParagraphHtml(block) != "" && Rendered(ParagraphPieces(block))
  {
    InnerIsText(block);
    LinesAreShown(Lines(block));
    InkOfLines(block);
    WrapShown(Open, LinePieces(Lines(block)), Join("<br>\n", EscapeAll(Lines(block))));
  }

  ghost predicate FooterOk(f: Footer) {
    ParagraphTag(f.tag) && f.tag[1] == 'p'
  }

  lemma FooterIsShown(f: Footer)
    requires FooterOk(f)
    ensures FooterHtml(f) == Flat(0, FooterPieces(f)) && TextInk(FooterPieces(f)) == Ink(f.text) &&
            Rendered(FooterPieces(f))
  {
    FlatOne(0, Esc(f.text));
    WrapShown(FooterOpen(f.tag), [Esc(f.text)], Escape(f.text));
  }

  /** Two rendered parts, joined by a line break. */
  lemma BothAreShown(a: seq<Piece>, b: seq<Piece>)
    requires Rendered(a) && TagsOk(b)
    ensures Flat(0, a + ([Gap] + b)) == Flat(0, a) + "\n" + Flat(0, b) &&
            TextInk(a + ([Gap] + b)) == TextInk(a) + TextInk(b)
    ensures Rendered(a + ([Gap] + b))
  {
    var rest := GapShown(b);
    FlatConcat(0, a, rest);
    Between(Flat(0, a), Flat(0, b));
    TagsConcat(a, b);
  }

  lemma GapShown(b: seq<Piece>) returns (rest: seq<Piece>)
    ensures rest == [Gap] + b && Flat(0, rest) == "\n" + Flat(0, b) && TextInk(rest) == TextInk(b)
  {
    rest := [Gap] + b;
    FlatCons(0, Gap, b);
    NoneBefore(TextInk(b));
  }

  lemma Between(a: string, b: string)
    ensures a + ("\n" + b) == a + "\n" + b
  {
  }

  lemma TagsConcat(a: seq<Piece>, b: seq<Piece>)
    requires Rendered(a) && TagsOk(b)
    ensures Rendered(a + ([Gap] + b))
  {
  }

  /** The pieces that one paragraph is rendered to carry its ink. */
  lemma PartsAreShown(f: Footer, paragraph: string) returns (ps: seq<Piece>)
    requires FooterOk(f) && paragraph != ""
    ensures ParagraphParts(f, paragraph) != [] && Rendered(ps)
    ensures Flat(0, ps) == Join("\n", ParagraphParts(f, paragraph)) && TextInk(ps) == Ink(paragraph)
  {
    if Strip(paragraph) == f.text {
      ps := FooterPieces(f);
      FooterIsShown(f);
      InkStrip(paragraph);
    } else if EndsWith(paragraph, f.text) && paragraph != f.text {
      ps := FooterSplit(f, paragraph);
    } else {
      ps := ParagraphPieces(paragraph);
      ParagraphIsShown(paragraph);
    }
  }

  lemma FooterSplit(f: Footer, paragraph: string) returns (ps: seq<Piece>)
    requires FooterOk(f) && Strip(paragraph) != f.text && EndsWith(paragraph, f.text) && paragraph != f.text
    ensures ParagraphParts(f, paragraph) != [] && Rendered(ps)
    ensures Flat(0, ps) == Join("\n", ParagraphParts(f, paragraph)) && TextInk(ps) == Ink(paragraph)
  {
    var front := paragraph[..|paragraph| - |f.text|];
    InkStripRight(front);
    assert paragraph == front + f.text;
    InkConcat(front, f.text);
    ps := MainAndFooter(f, StripRight(front));
  }

  lemma MainAndFooter(f: Footer, main: string) returns (ps: seq<Piece>)
    requires FooterOk(f)
    ensures Rendered(ps) && TextInk(ps) == Ink(main) + Ink(f.text)
    ensures Flat(0, ps) == Join("\n", (if main != "" then [ParagraphHtml(main)] else []) + [FooterHtml(f)])
  {
    FooterIsShown(f);
    ps := FooterPieces(f);
    if main == "" {
      assert [] + [FooterHtml(f)] == [FooterHtml(f)];
    } else {
      ParagraphIsShown(main);
      BothAreShown(ParagraphPieces(main), ps);
      ps := ParagraphPieces(main) + ([Gap] + ps);
      JoinSnoc2("\n", ParagraphHtml(main), FooterHtml(f));
    }
  }

  lemma JoinSnoc2(sep: string, a: string, b: string)
    ensures Join(sep, [a] + [b]) == a + sep + b
  {
    JoinCons(sep, a, [b]);
  }

  /** The pieces are the rendered parts joined by line breaks, and carry this ink. */
  ghost predicate ShownBy(ps: seq<Piece>, parts: seq<string>, ink: string) {
    Rendered(ps) && parts != [] && Flat(0, ps) == Join("\n", parts) && TextInk(ps) == ink
  }

  /** The paragraphs before the last one, and the last one. */
  lemma SplitLast(f: Footer, paragraphs: seq<string>) returns (front: seq<string>, last: string)
    requires paragraphs != [] && forall k :: 0 <= k < |paragraphs| ==> paragraphs[k] != ""
    ensures paragraphs == front + [last] && |front| < |paragraphs| && last != ""
    ensures forall k :: 0 <= k < |front| ==> front[k] != ""
    ensures AllParts(f, paragraphs) == AllParts(f, front) + ParagraphParts(f, last)
  {
    front, last := paragraphs[..|paragraphs| - 1], paragraphs[|paragraphs| - 1];
  }

  lemma {:induction false} AllPartsAreShown(f: Footer, paragraphs: seq<string>) returns (ps: seq<Piece>)
    requires FooterOk(f) && paragraphs != [] && forall k :: 0 <= k < |paragraphs| ==> paragraphs[k] != ""
    ensures ShownBy(ps, AllParts(f, paragraphs), InkOf(paragraphs))
    decreases |paragraphs|
  {
    var front, last := SplitLast(f, paragraphs);
    if front == [] {
      ps := PartsAreShown(f, last);
      FirstParts(f, paragraphs);
    } else {
      var shown := AllPartsAreShown(f, front);
      ps := NextParts(f, front, last, shown, AllParts(f, front));
    }
  }

  lemma NextParts(f: Footer, paragraphs: seq<string>, paragraph: string, front: seq<Piece>, parts: seq<string>)
    returns (ps: seq<Piece>)
    requires FooterOk(f) && paragraph != "" && ShownBy(front, parts, InkOf(paragraphs))
    ensures ShownBy(ps, parts + ParagraphParts(f, paragraph), InkOf(paragraphs + [paragraph]))
  {
    var last := PartsAreShown(f, paragraph);
    ps := MoreParts(front, last, parts, ParagraphParts(f, paragraph), paragraphs, paragraph);
  }

  lemma FirstParts(f: Footer, paragraphs: seq<string>)
    requires |paragraphs| == 1
    ensures AllParts(f, paragraphs) == ParagraphParts(f, paragraphs[0]) && InkOf(paragraphs) == Ink(paragraphs[0])
  {
    assert AllParts(f, paragraphs[..0]) == [];
    assert paragraphs == [paragraphs[0]];
    InkOfOne(paragraphs[0]);
  }

  lemma MoreParts(front: seq<Piece>, last: seq<Piece>, a: seq<string>, b: seq<string>, paragraphs: seq<string>,
                  paragraph: string)
    returns (ps: seq<Piece>)
    requires Rendered(front) && Rendered(last) && a != [] && b != []
    requires Flat(0, front) == Join("\n", a) && Flat(0, last) == Join("\n", b)
    requires TextInk(front) == InkOf(paragraphs) && TextInk(last) == Ink(paragraph)
    ensures Rendered(ps) && Flat(0, ps) == Join("\n", a + b) && TextInk(ps) == InkOf(paragraphs + [paragraph])
  {
    BothAreShown(front, last);
    ps := front + ([Gap] + last);
    JoinConcat("\n", a, b);
    InkOfSnoc(paragraphs, paragraph);
  }

  lemma {:induction false} InkOfSplit(s: string)
    ensures InkOf(SplitBlankLines(s)) == Ink(s)
    decreases |s|
  {
    if s != "" {
      match MatchBlankLine(s)
      case Some(n) =>
        InkOfSplit(s[n..]);
        assert s == s[..n] + s[n..];
        InkConcat(s[..n], s[n..]);
        InkOfSpace(s[..n]);
        assert ([""] + SplitBlankLines(s[n..]))[1..] == SplitBlankLines(s[n..]);
      case None =>
        InkOfSplit(s[1..]);
        var rest := SplitBlankLines(s[1..]);
        InkConcat([s[0]], rest[0]);
        InkConcat([s[0]], s[1..]);
        assert s == [s[0]] + s[1..];
        assert rest == [rest[0]] + rest[1..];
    }
  }

  lemma {:induction false} InkOfStripped(pieces: seq<string>)
    ensures InkOf(Stripped(pieces)) == InkOf(pieces)
    ensures forall k :: 0 <= k < |Stripped(pieces)| ==> Stripped(pieces)[k] != ""
  {
    if pieces != [] {
      InkOfStripped(pieces[1..]);
      InkStrip(pieces[0]);
      InkOfPrepended(Strip(pieces[0]), Stripped(pieces[1..]));
    }
  }

  lemma InkOfPrepended(s: string, rest: seq<string>)
    ensures InkOf((if s != "" then [s] else []) + rest) == Ink(s) + InkOf(rest)
  {
    assert ([s] + rest)[1..] == rest && [] + rest == rest;
  }

  lemma ParagraphsKeepInk(normalized: string)
    requires normalized != ""
    ensures var ps := Paragraphs(normalized);
            ps != [] && InkOf(ps) == Ink(normalized) && forall k :: 0 <= k < |ps| ==> ps[k] != ""
  {
    InkOfSplit(normalized);
    InkOfStripped(SplitBlankLines(normalized));
    InkOfOne(normalized);
  }

  /** The printer and the stripper undo each other up to whitespace, for every body, also one with
      markup characters, quotes or the footer in it. */
  lemma StripperUndoesPrinter(table: References, sp: Splitters, f: Footer, body: string)
    requires CutsAtSpace(sp) && FooterOk(f)
    ensures Ink(HtmlToPlain(table, Render(sp, f, body))) == Ink(body)
  {
    var normalized := Outbound(sp, body);
    OutboundKeepsInk(sp, body);
    RenderedText(table, f, normalized);
  }

  lemma RenderedText(table: References, f: Footer, normalized: string)
    requires FooterOk(f)
    ensures Ink(HtmlToPlain(table, RenderNormalized(f, normalized))) == Ink(normalized)
  {
    if normalized != "" {
      ParagraphsKeepInk(normalized);
      var ps := AllPartsAreShown(f, Paragraphs(normalized));
      StrippedPieces(table, ps);
    }
  }

  lemma StayFooterIsOneLine()
    ensures '\n' !in STAY_FOOTER.text
  {
    assert '\n' !in "Managed by stay.hr" && '\n' !in " \U{2014} https://stay.hr/";
    assert STAY_FOOTER.text == "Managed by stay.hr" + " \U{2014} https://stay.hr/";
  }

  lemma StayFooterOk()
    ensures FooterOk(STAY_FOOTER)
  {
    var inner := "p " + FOOTER_STYLE;
    assert '<' !in FOOTER_STYLE && '>' !in FOOTER_STYLE;
    TagAround(inner);
    assert STAY_FOOTER.tag == "<" + inner + ">";
  }

  lemma TagAround(inner: string)
    requires '<' !in inner && '>' !in inner && |inner| > 0 && (inner[0] == 'p' || inner[0] == '/')
    ensures ParagraphTag("<" + inner + ">")
  {
    var tag := "<" + inner + ">";
    assert tag[1..] == inner + ">" && tag[..|tag| - 1] == "<" + inner;
  }

  /** prepare_guest_email_bodies: the plain text and the HTML alternative, which is made when the
      caller gives none; a given one is only stripped. */
  function Bodies(sp: Splitters, f: Footer, text: string, html: Option<string>): (string, string)
    requires CutsAtSpace(sp)
  {
    var plain := Outbound(sp, text);
    var given := Strip(html.GetOr(""));
    (plain, if given != "" then given else Render(sp, f, plain))
  }

  /** Rendering what was already normalised renders the same, so both alternatives say the same. */
  lemma BodiesAgree(table: References, sp: Splitters, f: Footer, text: string, html: Option<string>)
    requires CutsAtSpace(sp) && FooterOk(f) && Strip(html.GetOr("")) == ""
    ensures var (plain, alternative) := Bodies(sp, f, text, html);
            alternative == Render(sp, f, text) && Ink(HtmlToPlain(table, alternative)) == Ink(plain)
  {
    var plain := Outbound(sp, text);
    OutboundIsIdempotent(sp, text);
    RenderedText(table, f, plain);
  }

  // ---------------------------------------------------------------- the loop

  method AppendParagraph(f: Footer, parts: seq<string>, paragraph: string) returns (r: seq<string>)
    ensures r == parts + ParagraphParts(f, paragraph)
  {
    r := parts;
    if Strip(paragraph) == f.text {
      r := r + [FooterHtml(f)];
    } else if EndsWith(paragraph, f.text) && paragraph != f.text {
      var main := StripRight(paragraph[..|paragraph| - |f.text|]);
      if main != "" { r := r + [ParagraphHtml(main)]; }
      r := r + [FooterHtml(f)];
    } else {
      var rendered := ParagraphHtml(paragraph);
      if rendered != "" { r := r + [rendered]; }
    }
  }

  lemma AllPartsNext(f: Footer, paragraphs: seq<string>, k: nat)
    requires k < |paragraphs|
    ensures AllParts(f, paragraphs[..k + 1]) == AllParts(f, paragraphs[..k]) + ParagraphParts(f, paragraphs[k])
  {
    assert paragraphs[..k + 1][..k] == paragraphs[..k];
  }

  method RenderAll(f: Footer, paragraphs: seq<string>) returns (parts: seq<string>)
    ensures parts == AllParts(f, paragraphs)
  {
    parts := [];
    for k := 0 to |paragraphs|
      invariant parts == AllParts(f, paragraphs[..k])
    {
      AllPartsNext(f, paragraphs, k);
      parts := AppendParagraph(f, parts, paragraphs[k]);
    }
    assert paragraphs[..|paragraphs|] == paragraphs;
  }

  method RenderParagraphs(f: Footer, normalized: string) returns (html: string)
    ensures html == RenderNormalized(f, normalized)
  {
    if normalized == "" { return ""; }
    var parts := RenderAll(f, Paragraphs(normalized));
    html := Join("\n", parts);
  }

  method RenderGuestMessageEmailHtml(sp: Splitters, f: Footer, body: string) returns (html: string)
    requires CutsAtSpace(sp)
    ensures html == Render(sp, f, body)
  {
    var normalized := NormalizeOutboundPlainText(sp, body);
    html := RenderParagraphs(f, normalized);
  }
}
