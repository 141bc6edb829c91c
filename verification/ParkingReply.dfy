/** The automatic reply to a parking question: the texts it is put together from, and the languages they are
    written in. */
module ParkingReply {
  import opened Wrappers
  import opened Strings
  import opened LanguagePolicy
  import BodyFormat

  // ---------------------------------------------------------------- texts by language

  datatype Entry = Entry(language: string, text: string)

  /** A dictionary from language codes to texts, in its order; a text may be empty. */
  type Dictionary = seq<Entry>

  predicate Speaks(texts: Dictionary, language: string) {
    exists k :: 0 <= k < |texts| && texts[k].language == language && texts[k].text != ""
  }

  predicate SpeaksJust(texts: Dictionary, languages: set<string>) {
    (forall k :: 0 <= k < |texts| && texts[k].text != "" ==> texts[k].language in languages) &&
    forall language :: language in languages ==> Speaks(texts, language)
  }

  function EntryOf(texts: Dictionary, language: string): (r: Option<Entry>)
    ensures r.Some? ==> r.value.language == language && r.value.text != ""
    ensures r.Some? <==> Speaks(texts, language)
  {
    if texts == [] then None
    else if texts[0].language == language && texts[0].text != "" then
      assert Speaks(texts, language);
      Some(texts[0])
    else
      assert Speaks(texts[1..], language) <==> Speaks(texts, language) by {
        if Speaks(texts, language) {
          var k :| 0 <= k < |texts| && texts[k].language == language && texts[k].text != "";
          assert texts[1..][k - 1] == texts[k];
        }
      }
      EntryOf(texts[1..], language)
  }

  /** The first text that is not empty. */
  function FirstSpoken(texts: Dictionary): (r: Option<Entry>)
    ensures r.Some? ==> r.value in texts && r.value.text != ""
    ensures r.None? ==> forall k :: 0 <= k < |texts| ==> texts[k].text == ""
  {
    if texts == [] then None else if texts[0].text != "" then Some(texts[0]) else FirstSpoken(texts[1..])
  }

  /** `(lang or "en").split("-")[0].lower()` */
  function Base(lang: string): string {
    Lower(BeforeDash(if lang == "" then CANONICAL_LANGUAGE_DEFAULT else lang))
  }

  /** _text_for_lang: the text in this language, else in English, else the first one there is. */
  function TextForLang(texts: Dictionary, lang: string): Option<Entry> {
    if EntryOf(texts, Base(lang)).Some? then EntryOf(texts, Base(lang))
    else if EntryOf(texts, CANONICAL_LANGUAGE_DEFAULT).Some? then EntryOf(texts, CANONICAL_LANGUAGE_DEFAULT)
    else FirstSpoken(texts)
  }

  /** In the language asked for when the dictionary speaks it, and in another one when it does not. */
  lemma SpokenIs(texts: Dictionary, lang: string)
    ensures var e := TextForLang(texts, lang);
            (e.Some? ==> e.value.text != "" && Speaks(texts, e.value.language) &&
                         (e.value.language == Base(lang) <==> Speaks(texts, Base(lang)))) &&
            (Speaks(texts, CANONICAL_LANGUAGE_DEFAULT) ==>
               e.Some? && e.value.language in {Base(lang), CANONICAL_LANGUAGE_DEFAULT})
  {
    var first := FirstSpoken(texts);
    if first.Some? {
      var k :| 0 <= k < |texts| && texts[k] == first.value;
      assert Speaks(texts, first.value.language);
    }
  }

  // ---------------------------------------------------------------- what is written

  /** A text and the languages its parts are written in; names, prices and notes are in none. */
  datatype Written = Written(text: string, languages: set<string>)

  function Said(texts: Dictionary, lang: string): Written {
    match TextForLang(texts, lang)
    case None => Written("", {})
    case Some(e) => Written(e.text, {e.language})
  }

  predicate OneLanguage(w: Written) {
    forall a, b :: a in w.languages && b in w.languages ==> a == b
  }

  /** The languages that these dictionaries are picked in. */
  function SpokenBy(texts: seq<Dictionary>, lang: string): set<string> {
    if texts == [] then {} else SpokenBy(texts[..|texts| - 1], lang) + Said(texts[|texts| - 1], lang).languages
  }

  lemma {:induction false} SpokenByHas(texts: seq<Dictionary>, lang: string, language: string)
    ensures language in SpokenBy(texts, lang) <==>
            exists k :: 0 <= k < |texts| && language in Said(texts[k], lang).languages
  {
    if texts != [] {
      var n := |texts| - 1;
      SpokenByHas(texts[..n], lang, language);
      if language in SpokenBy(texts[..n], lang) {
        var k :| 0 <= k < n && language in Said(texts[..n][k], lang).languages;
        assert language in Said(texts[k], lang).languages;
      }
      forall k | 0 <= k < n && language in Said(texts[k], lang).languages ensures language in SpokenBy(texts, lang) {
        assert texts[..n][k] == texts[k];
      }
    }
  }

  lemma {:induction false} SpokenByConcat(a: seq<Dictionary>, b: seq<Dictionary>, lang: string)
    ensures SpokenBy(a + b, lang) == SpokenBy(a, lang) + SpokenBy(b, lang)
  {
    if b == [] {
      assert a + b == a;
    } else {
      var n := |b| - 1;
      SpokenByConcat(a, b[..n], lang);
      assert (a + b)[..|a + b| - 1] == a + b[..n];
    }
  }

  /** All that these dictionaries have to say is in one language. */
  predicate Agree(texts: seq<Dictionary>, lang: string) {
    forall j, k :: 0 <= j < |texts| && 0 <= k < |texts| ==> SameLanguage(texts[j], texts[k], lang)
  }

  predicate SameLanguage(a: Dictionary, b: Dictionary, lang: string) {
    var e, f := TextForLang(a, lang), TextForLang(b, lang);
    e.Some? && f.Some? ==> e.value.language == f.value.language
  }

  lemma AgreeIsOne(texts: seq<Dictionary>, lang: string, w: Written)
    requires w.languages == SpokenBy(texts, lang)
    ensures OneLanguage(w) <==> Agree(texts, lang)
  {
    if OneLanguage(w) {
      forall j, k | 0 <= j < |texts| && 0 <= k < |texts| ensures SameLanguage(texts[j], texts[k], lang) {
        var e, f := TextForLang(texts[j], lang), TextForLang(texts[k], lang);
        if e.Some? && f.Some? {
          assert e.value.language in Said(texts[j], lang).languages;
          assert f.value.language in Said(texts[k], lang).languages;
          SpokenByHas(texts, lang, e.value.language);
          SpokenByHas(texts, lang, f.value.language);
        }
      }
    }
    if Agree(texts, lang) {
      forall a, b | a in w.languages && b in w.languages ensures a == b {
        SpokenByHas(texts, lang, a);
        SpokenByHas(texts, lang, b);
        var j :| 0 <= j < |texts| && a in Said(texts[j], lang).languages;
        var k :| 0 <= k < |texts| && b in Said(texts[k], lang).languages;
        assert SameLanguage(texts[j], texts[k], lang);
      }
    }
  }

  /** Whatever the dictionary has to say is in this language. */
  predicate Within(texts: Dictionary, lang: string, language: string) {
    Said(texts, lang).languages <= {language}
  }

  lemma {:induction false} SpokenByWithin(texts: seq<Dictionary>, lang: string, language: string)
    ensures SpokenBy(texts, lang) <= {language} <==> forall k :: 0 <= k < |texts| ==> Within(texts[k], lang, language)
  {
    if texts != [] {
      var n := |texts| - 1;
      SpokenByWithin(texts[..n], lang, language);
      assert forall k :: 0 <= k < n ==> texts[..n][k] == texts[k];
      assert SpokenBy(texts, lang) <= {language} <==>
             SpokenBy(texts[..n], lang) <= {language} && Within(texts[n], lang, language);
    }
  }

  /** A dictionary with an English text is picked in the language asked for, or else in English. */
  lemma EnglishSpeaks(texts: Dictionary, lang: string)
    requires Speaks(texts, CANONICAL_LANGUAGE_DEFAULT)
    ensures var e := TextForLang(texts, lang);
            e.Some? && e.value.language == if Speaks(texts, Base(lang)) then Base(lang) else CANONICAL_LANGUAGE_DEFAULT
  {
    SpokenIs(texts, lang);
  }

  /** Dictionaries with an English text agree exactly when all of them or none of them speak the language. */
  lemma AllOrNone(texts: seq<Dictionary>, lang: string)
    requires forall k :: 0 <= k < |texts| ==> Speaks(texts[k], CANONICAL_LANGUAGE_DEFAULT)
    ensures Agree(texts, lang) <==>
            (forall k :: 0 <= k < |texts| ==> Speaks(texts[k], Base(lang))) ||
            (forall k :: 0 <= k < |texts| ==> !Speaks(texts[k], Base(lang)))
  {
    forall k | 0 <= k < |texts|
      ensures var e := TextForLang(texts[k], lang);
              e.Some? &&
              e.value.language == if Speaks(texts[k], Base(lang)) then Base(lang) else CANONICAL_LANGUAGE_DEFAULT
    {
      EnglishSpeaks(texts[k], lang);
    }
    forall j, k | 0 <= j < |texts| && 0 <= k < |texts| && Speaks(texts[j], Base(lang)) && !Speaks(texts[k], Base(lang))
      ensures !SameLanguage(texts[j], texts[k], lang)
    {
      assert Base(lang) != CANONICAL_LANGUAGE_DEFAULT;
    }
  }

  // ---------------------------------------------------------------- the template

  /** What a detail of the facts says: a phrase by language, or a note as the property wrote it. */
  datatype Detail = Phrase(texts: Dictionary) | Note(text: string)

  /** What the template reply is made of: the heading and the details of the property's parking facts, the
      stored text that stands in for them, and the prefix when the reservation's notes ask for parking. */
  datatype Template = Template(heading: Dictionary, details: seq<Detail>, stored: Dictionary,
                               prefix: Option<Dictionary>)

  function SaidBy(detail: Detail, lang: string): Written {
    match detail
    case Phrase(texts) => Said(texts, lang)
    case Note(text) => Written(text, {})
  }

  /** The details that say something. */
  function DetailParts(details: seq<Detail>, lang: string): seq<Written> {
    if details == [] then []
    else
      var last := SaidBy(details[|details| - 1], lang);
      DetailParts(details[..|details| - 1], lang) + if last.text == "" then [] else [last]
  }

  function TextsOf(parts: seq<Written>): seq<string> {
    seq(|parts|, i requires 0 <= i < |parts| => parts[i].text)
  }

  function LanguagesOf(parts: seq<Written>): set<string> {
    if parts == [] then {} else LanguagesOf(parts[..|parts| - 1]) + parts[|parts| - 1].languages
  }

  /** _generate_parking_body_from_facts */
  function GenerateParkingBody(t: Template, lang: string): Written {
    var parts, heading := DetailParts(t.details, lang), Said(t.heading, lang);
    if parts == [] then Written("", {})
    else Written(heading.text + " " + BodyFormat.Join(". ", TextsOf(parts)) + ".",
                 heading.languages + LanguagesOf(parts))
  }

  /** The reply without its prefix. */
  function BareReply(t: Template, lang: string): Written {
    var generated := GenerateParkingBody(t, lang);
    if generated.text != "" then generated else Said(t.stored, lang)
  }

  function WithPrefix(prefix: Option<Dictionary>, lang: string, body: Written): Written {
    match prefix
    case None => body
    case Some(texts) => Written(Said(texts, lang).text + body.text, Said(texts, lang).languages + body.languages)
  }

  /** render_parking_reply_text */
  function RenderParkingReplyText(t: Template, lang: string): Written {
    var body := BareReply(t, lang);
    if body.text == "" then body else WithPrefix(t.prefix, lang, body)
  }

  function PhrasesOf(details: seq<Detail>): seq<Dictionary> {
    if details == [] then []
    else
      PhrasesOf(details[..|details| - 1]) +
      match details[|details| - 1]
      case Phrase(texts) => [texts]
      case Note(_) => []
  }

  /** The dictionaries that the reply without its prefix is picked from. */
  function BareTexts(t: Template, lang: string): seq<Dictionary> {
    if DetailParts(t.details, lang) != [] then [t.heading] + PhrasesOf(t.details) else [t.stored]
  }

  /** The dictionaries that the template reply is picked from. */
  function BodyTexts(t: Template, lang: string): seq<Dictionary> {
    match t.prefix
    case None => BareTexts(t, lang)
    case Some(texts) => [texts] + BareTexts(t, lang)
  }

  lemma SpokenByOne(texts: Dictionary, lang: string)
    ensures SpokenBy([texts], lang) == Said(texts, lang).languages
  {
    assert [texts][..0] == [];
  }

  lemma SilentIsNothing(texts: Dictionary, lang: string)
    ensures Said(texts, lang).text == "" ==> Said(texts, lang).languages == {}
  {
    SpokenIs(texts, lang);
  }

  lemma OneMorePart(front: seq<Written>, last: Written)
    ensures LanguagesOf(front + [last]) == LanguagesOf(front) + last.languages
  {
    assert (front + [last])[..|front|] == front;
  }

  lemma {:induction false} DetailLanguages(details: seq<Detail>, lang: string)
    ensures LanguagesOf(DetailParts(details, lang)) == SpokenBy(PhrasesOf(details), lang)
  {
    if details != [] {
      var n := |details| - 1;
      var front, phrases := DetailParts(details[..n], lang), PhrasesOf(details[..n]);
      DetailLanguages(details[..n], lang);
      OneMorePart(front, SaidBy(details[n], lang));
      assert front + [] == front && phrases + [] == phrases;
      if details[n].Phrase? {
        SilentIsNothing(details[n].texts, lang);
        SpokenByConcat(phrases, [details[n].texts], lang);
        SpokenByOne(details[n].texts, lang);
      }
    }
  }

  lemma BareLanguages(t: Template, lang: string)
    ensures BareReply(t, lang).text != "" ==> BareReply(t, lang).languages == SpokenBy(BareTexts(t, lang), lang)
  {
    if DetailParts(t.details, lang) != [] {
      DetailLanguages(t.details, lang);
      SpokenByConcat([t.heading], PhrasesOf(t.details), lang);
      SpokenByOne(t.heading, lang);
    } else {
      SpokenByOne(t.stored, lang);
    }
  }

  lemma PrefixLanguages(texts: Dictionary, lang: string, body: Written, rest: seq<Dictionary>)
    requires body.languages == SpokenBy(rest, lang)
    ensures WithPrefix(Some(texts), lang, body).languages == SpokenBy([texts] + rest, lang)
  {
    SpokenByOne(texts, lang);
    SpokenByConcat([texts], rest, lang);
  }

  /** The template reply is written in the languages that its dictionaries are picked in. */
  lemma RenderedLanguages(t: Template, lang: string)
    ensures var body := RenderParkingReplyText(t, lang);
            body.text != "" ==> body.languages == SpokenBy(BodyTexts(t, lang), lang)
  {
    BareLanguages(t, lang);
    if BareReply(t, lang).text != "" && t.prefix.Some? {
      PrefixLanguages(t.prefix.value, lang, BareReply(t, lang), BareTexts(t, lang));
    }
  }

  // ---------------------------------------------------------------- the frame

  /** What stands around a reply: greeting, the name to greet when the booker has none, and sign-off. How the
      name is filled in may be any function; `tail` is the property's name and the house footer. */
  datatype Frame = Frame(greeting: Dictionary, defaultName: Dictionary, signOff: Dictionary,
                         firstName: Option<string>, fill: (string, string) -> string, tail: string)

  function NameOf(frame: Frame, lang: string): Written {
    match frame.firstName
    case Some(name) => Written(name, {})
    case None => Said(frame.defaultName, lang)
  }

  /** _format_parking_reply_with_greeting */
  function FormatReply(frame: Frame, reply: Written, lang: string): Written {
    var greeting, name, signOff := Said(frame.greeting, lang), NameOf(frame, lang), Said(frame.signOff, lang);
    Written(frame.fill(greeting.text, name.text) + "\n\n" + reply.text + "\n\n" + signOff.text + "\n" + frame.tail,
            greeting.languages + name.languages + reply.languages + signOff.languages)
  }

  /** The dictionaries that the frame is picked from. */
  function FrameTexts(frame: Frame): seq<Dictionary> {
    [frame.greeting, frame.signOff] + if frame.firstName.None? then [frame.defaultName] else []
  }

  lemma FrameLanguages(frame: Frame, reply: Written, lang: string)
    ensures FormatReply(frame, reply, lang).languages == reply.languages + SpokenBy(FrameTexts(frame), lang)
  {
    SpokenByOne(frame.greeting, lang);
    SpokenByOne(frame.signOff, lang);
    SpokenByConcat([frame.greeting], [frame.signOff], lang);
    assert [frame.greeting] + [frame.signOff] == [frame.greeting, frame.signOff];
    if frame.firstName.None? {
      SpokenByOne(frame.defaultName, lang);
      SpokenByConcat([frame.greeting, frame.signOff], [frame.defaultName], lang);
    } else {
      assert FrameTexts(frame) == [frame.greeting, frame.signOff];
    }
  }

  // ---------------------------------------------------------------- the reply

  /** What the model returned: its text and the language it claims for it; both may be empty. The text is
      taken to be in the language it claims. */
  datatype Composed = Composed(text: string, claimed: string)

  /** A drafted reply: its body, the language recorded for it and the whole text. */
  datatype Draft = Draft(body: Written, language: string, whole: Written)

  /** _parse_llm_response: the claim is normalised but not resolved. */
  function Reported(tables: Tables, claimed: string): string {
    match NormalizeReply(tables, claimed)
    case Some(code) => code
    case None => ""
  }

  /** build_parking_auto_reply, which chooses again with the language it is given. */
  function BuildParkingAutoReply(tables: Tables, x: Inputs, t: Template, language: string): Written {
    RenderParkingReplyText(t, Choose(tables, x, language).language)
  }

  /** send_parking_auto_reply up to the draft, which chooses once more; an empty reply is not sent. */
  function SendParkingAutoReply(tables: Tables, x: Inputs, frame: Frame, reply: Written,
                                language: string): Option<Draft> {
    if reply.text == "" then None
    else
      var lang := Choose(tables, x, language).language;
      Some(Draft(reply, lang, FormatReply(frame, reply, lang)))
  }

  /** The model's text is used only when it claims the language that is chosen. */
  predicate UsesModelText(tables: Tables, x: Inputs, llm: Composed) {
    llm.text != "" && Reported(tables, llm.claimed) == Choose(tables, x, Reported(tables, llm.claimed)).language
  }

  /** _handle_parking_llm from the language on. */
  function HandleParkingLlm(tables: Tables, x: Inputs, t: Template, frame: Frame, llm: Composed): Option<Draft> {
    var reported := Reported(tables, llm.claimed);
    var final := Choose(tables, x, reported).language;
    var reply := if UsesModelText(tables, x, llm) then Written(llm.text, {reported})
                 else BuildParkingAutoReply(tables, x, t, final);
    SendParkingAutoReply(tables, x, frame, reply, final)
  }

  /** _handle_parking_fallback from the language on. */
  function HandleParkingFallback(tables: Tables, x: Inputs, t: Template, frame: Frame): Option<Draft> {
    var lang := Choose(tables, x, "").language;
    SendParkingAutoReply(tables, x, frame, BuildParkingAutoReply(tables, x, t, lang), lang)
  }

  lemma OneWithin(w: Written, language: string, others: set<string>)
    requires w.languages == {language} + others
    ensures OneLanguage(w) <==> others <= {language}
  {
  }

  /** A reply around the model's text is in one language exactly when whatever its greeting, its sign-off and,
      without a booker's name, its default name say is in the language that is recorded for it. */
  lemma ModelReplyIff(tables: Tables, x: Inputs, t: Template, frame: Frame, llm: Composed)
    requires UsesModelText(tables, x, llm)
    ensures var d := HandleParkingLlm(tables, x, t, frame, llm);
            d.Some? && d.value.body.text == llm.text && d.value.language == Reported(tables, llm.claimed) &&
            (OneLanguage(d.value.whole) <==>
             forall k :: 0 <= k < |FrameTexts(frame)| ==>
               Within(FrameTexts(frame)[k], d.value.language, d.value.language))
  {
    var d := HandleParkingLlm(tables, x, t, frame, llm).value;
    FrameLanguages(frame, d.body, d.language);
    SpokenByWithin(FrameTexts(frame), d.language, d.language);
    OneWithin(d.whole, d.language, SpokenBy(FrameTexts(frame), d.language));
  }

  /** A reply around the template is in one language exactly when the dictionaries of its body and those of its
      frame are picked in one language; that need not be the one that was chosen. */
  lemma TemplateDraftIff(tables: Tables, x: Inputs, t: Template, frame: Frame, language: string)
    ensures var d := SendParkingAutoReply(tables, x, frame, BuildParkingAutoReply(tables, x, t, language), language);
            d.Some? ==> (OneLanguage(d.value.whole) <==>
                         Agree(BodyTexts(t, d.value.language) + FrameTexts(frame), d.value.language))
  {
    var lang := Choose(tables, x, language).language;
    var reply := RenderParkingReplyText(t, lang);
    RenderedLanguages(t, lang);
    FrameLanguages(frame, reply, lang);
    SpokenByConcat(BodyTexts(t, lang), FrameTexts(frame), lang);
    if reply.text != "" {
      AgreeIsOne(BodyTexts(t, lang) + FrameTexts(frame), lang, FormatReply(frame, reply, lang));
    }
  }

  /** The same on both paths that lead to the template. */
  lemma TemplateReplyIff(tables: Tables, x: Inputs, t: Template, frame: Frame, llm: Composed)
    ensures var d := HandleParkingLlm(tables, x, t, frame, llm);
            d.Some? && !UsesModelText(tables, x, llm) ==>
              (OneLanguage(d.value.whole) <==>
               Agree(BodyTexts(t, d.value.language) + FrameTexts(frame), d.value.language))
    ensures var d := HandleParkingFallback(tables, x, t, frame);
            d.Some? ==> (OneLanguage(d.value.whole) <==>
                         Agree(BodyTexts(t, d.value.language) + FrameTexts(frame), d.value.language))
  {
    TemplateDraftIff(tables, x, t, frame, Choose(tables, x, Reported(tables, llm.claimed)).language);
    TemplateDraftIff(tables, x, t, frame, Choose(tables, x, "").language);
  }

  // ---------------------------------------------------------------- dictionaries with an English text

  /** Greeting and sign-off speak some languages, the default name fewer of them, all of them English. */
  predicate HouseFrame(frame: Frame, frameLanguages: set<string>, nameLanguages: set<string>) {
    SpeaksJust(frame.greeting, frameLanguages) && SpeaksJust(frame.signOff, frameLanguages) &&
    SpeaksJust(frame.defaultName, nameLanguages) &&
    CANONICAL_LANGUAGE_DEFAULT in nameLanguages && nameLanguages <= frameLanguages
  }

  /** Every dictionary of the body speaks the same languages, more than the frame. */
  predicate HouseBody(t: Template, lang: string, bodyLanguages: set<string>) {
    forall k :: 0 <= k < |BodyTexts(t, lang)| ==> SpeaksJust(BodyTexts(t, lang)[k], bodyLanguages)
  }

  function Framed(frame: Frame, frameLanguages: set<string>, nameLanguages: set<string>): set<string> {
    if frame.firstName.Some? then frameLanguages else nameLanguages
  }

  lemma SpeaksIn(texts: Dictionary, languages: set<string>, language: string)
    requires SpeaksJust(texts, languages)
    ensures Speaks(texts, language) <==> language in languages
  {
  }

  lemma FrameSpeaks(frame: Frame, frameLanguages: set<string>, nameLanguages: set<string>, language: string)
    requires HouseFrame(frame, frameLanguages, nameLanguages)
    ensures (forall k :: 0 <= k < |FrameTexts(frame)| ==> Speaks(FrameTexts(frame)[k], language)) <==>
            language in Framed(frame, frameLanguages, nameLanguages)
    ensures (forall k :: 0 <= k < |FrameTexts(frame)| ==> !Speaks(FrameTexts(frame)[k], language)) <==>
            language !in frameLanguages
  {
    var texts := FrameTexts(frame);
    assert texts[0] == frame.greeting && texts[1] == frame.signOff;
    assert frame.firstName.None? ==> texts[2] == frame.defaultName;
    SpeaksIn(frame.greeting, frameLanguages, language);
    SpeaksIn(frame.signOff, frameLanguages, language);
    SpeaksIn(frame.defaultName, nameLanguages, language);
  }

  /** Around the model's text such a frame is in the same language exactly when it speaks the chosen one. */
  lemma HouseModelReply(tables: Tables, x: Inputs, t: Template, frame: Frame, llm: Composed,
                        frameLanguages: set<string>, nameLanguages: set<string>)
    requires UsesModelText(tables, x, llm) && HouseFrame(frame, frameLanguages, nameLanguages)
    requires var language := Reported(tables, llm.claimed); Base(language) == language
    ensures var d := HandleParkingLlm(tables, x, t, frame, llm);
            d.Some? &&
            (OneLanguage(d.value.whole) <==> d.value.language in Framed(frame, frameLanguages, nameLanguages))
  {
    ModelReplyIff(tables, x, t, frame, llm);
    var language := Reported(tables, llm.claimed);
    FrameSpeaks(frame, frameLanguages, nameLanguages, language);
    FrameSpeaks(frame, frameLanguages, nameLanguages, CANONICAL_LANGUAGE_DEFAULT);
    forall k | 0 <= k < |FrameTexts(frame)|
      ensures Within(FrameTexts(frame)[k], language, language) <==> Speaks(FrameTexts(frame)[k], language)
    {
      EnglishSpeaks(FrameTexts(frame)[k], language);
    }
  }

  lemma BodySpeaks(t: Template, lang: string, bodyLanguages: set<string>, language: string)
    requires HouseBody(t, lang, bodyLanguages)
    ensures (forall k :: 0 <= k < |BodyTexts(t, lang)| ==> Speaks(BodyTexts(t, lang)[k], language)) <==>
            language in bodyLanguages
    ensures (forall k :: 0 <= k < |BodyTexts(t, lang)| ==> !Speaks(BodyTexts(t, lang)[k], language)) <==>
            language !in bodyLanguages
  {
    var texts := BodyTexts(t, lang);
    assert texts != [];
    forall k | 0 <= k < |texts| ensures Speaks(texts[k], language) <==> language in bodyLanguages {
      SpeaksIn(texts[k], bodyLanguages, language);
    }
    assert SpeaksJust(texts[0], bodyLanguages);
  }

  ghost predicate AllSpeak(texts: seq<Dictionary>, language: string) {
    forall k :: 0 <= k < |texts| ==> Speaks(texts[k], language)
  }

  ghost predicate NoneSpeaks(texts: seq<Dictionary>, language: string) {
    forall k :: 0 <= k < |texts| ==> !Speaks(texts[k], language)
  }

  lemma SpeakTogether(a: seq<Dictionary>, b: seq<Dictionary>, language: string)
    ensures AllSpeak(a + b, language) <==> AllSpeak(a, language) && AllSpeak(b, language)
    ensures NoneSpeaks(a + b, language) <==> NoneSpeaks(a, language) && NoneSpeaks(b, language)
  {
    assert forall k :: 0 <= k < |a| ==> (a + b)[k] == a[k];
    assert forall k :: 0 <= k < |b| ==> (a + b)[|a| + k] == b[k];
  }

  /** Around the template such a frame is in the same language exactly when both speak the chosen one, or
      neither does and all is English. */
  lemma HouseTemplateAgrees(t: Template, frame: Frame, lang: string, bodyLanguages: set<string>,
                            frameLanguages: set<string>, nameLanguages: set<string>)
    requires HouseFrame(frame, frameLanguages, nameLanguages) && HouseBody(t, lang, bodyLanguages)
    requires CANONICAL_LANGUAGE_DEFAULT in bodyLanguages
    ensures Agree(BodyTexts(t, lang) + FrameTexts(frame), lang) <==>
            if Base(lang) in bodyLanguages then Base(lang) in Framed(frame, frameLanguages, nameLanguages)
            else Base(lang) !in frameLanguages
  {
    var body, around := BodyTexts(t, lang), FrameTexts(frame);
    BodySpeaks(t, lang, bodyLanguages, Base(lang));
    BodySpeaks(t, lang, bodyLanguages, CANONICAL_LANGUAGE_DEFAULT);
    FrameSpeaks(frame, frameLanguages, nameLanguages, Base(lang));
    FrameSpeaks(frame, frameLanguages, nameLanguages, CANONICAL_LANGUAGE_DEFAULT);
    assert AllSpeak(body, CANONICAL_LANGUAGE_DEFAULT) && AllSpeak(around, CANONICAL_LANGUAGE_DEFAULT);
    SpeakTogether(body, around, CANONICAL_LANGUAGE_DEFAULT);
    SpeakTogether(body, around, Base(lang));
    AllOrNone(body + around, lang);
  }

  // ---------------------------------------------------------------- the dictionaries of the repository

  /** The keys of GREETING, SIGN_OFF and PARKING_TEXTS, of the default name, and of the facts' phrases. */
  const FRAME_LANGUAGES: set<string> := {"hr", "en", "de", "es", "fr"}
  const NAME_LANGUAGES: set<string> := {"hr", "en"}
  const FACTS_LANGUAGES: set<string> := {"hr", "en", "de", "es", "fr", "sk"}

  lemma PlainBase(lang: string)
    requires TwoLowerLetters(lang)
    ensures Base(lang) == lang
  {
    assert '-' !in lang;
    BeforeDashOfPlain(lang);
  }

  /** A reply from parking facts that speak the six languages, to a language of two letters: with a booker's
      name it is one language for all but Slovak, without one it mixes in German, Spanish and French too. */
  lemma FactsReplyIff(t: Template, frame: Frame, lang: string)
    requires HouseFrame(frame, FRAME_LANGUAGES, NAME_LANGUAGES) && HouseBody(t, lang, FACTS_LANGUAGES)
    requires TwoLowerLetters(lang)
    ensures Agree(BodyTexts(t, lang) + FrameTexts(frame), lang) <==>
            lang !in (if frame.firstName.Some? then {"sk"} else {"de", "es", "fr", "sk"})
  {
    PlainBase(lang);
    HouseTemplateAgrees(t, frame, lang, FACTS_LANGUAGES, FRAME_LANGUAGES, NAME_LANGUAGES);
  }

  /** A detection that `choose` takes over as it stands, whatever the reply language. */
  predicate SureOf(x: Inputs, language: string) {
    x.mode == Reactive && x.override == "" && TwoLowerLetters(language) && x.detection.Some? &&
    x.detection.value.language == language && x.detection.value.confidence >= MESSAGE_OVERRIDES_LLM_THRESHOLD
  }

  lemma SureIsChosen(replyLanguages: set<string>, isoCountry: string -> string, x: Inputs, language: string,
                     reply: string)
    requires SureOf(x, language)
    ensures Choose(Standard(replyLanguages, isoCountry), x, reply).language == language
  {
    NormalizeBlank();
  }

  lemma NormalIsReported(replyLanguages: set<string>, isoCountry: string -> string, language: string)
    requires TwoLowerLetters(language) && language in replyLanguages
    ensures Reported(Standard(replyLanguages, isoCountry), language) == language
  {
    StandardNormalizes(replyLanguages, isoCountry);
    assert Standard(replyLanguages, isoCountry).normalize(language) == language;
  }

  /** A Slovak question gets a Slovak template between an English greeting and sign-off. */
  lemma SlovakIsMixed(replyLanguages: set<string>, isoCountry: string -> string, x: Inputs, t: Template, frame: Frame)
    requires SureOf(x, "sk") && HouseFrame(frame, FRAME_LANGUAGES, NAME_LANGUAGES) &&
             HouseBody(t, "sk", FACTS_LANGUAGES)
    requires RenderParkingReplyText(t, "sk").text != ""
    ensures var d := HandleParkingFallback(Standard(replyLanguages, isoCountry), x, t, frame);
            d.Some? && d.value.language == "sk" && !OneLanguage(d.value.whole)
  {
    var tables := Standard(replyLanguages, isoCountry);
    SureIsChosen(replyLanguages, isoCountry, x, "sk", "");
    SureIsChosen(replyLanguages, isoCountry, x, "sk", "sk");
    TemplateReplyIff(tables, x, t, frame, Composed("", ""));
    FactsReplyIff(t, frame, "sk");
  }

  /** An Italian question whose reply the model wrote in Italian gets it in an English frame. */
  lemma ItalianIsMixed(replyLanguages: set<string>, isoCountry: string -> string, x: Inputs, t: Template, frame: Frame,
                       text: string)
    requires SureOf(x, "it") && "it" in replyLanguages && text != "" &&
             HouseFrame(frame, FRAME_LANGUAGES, NAME_LANGUAGES)
    ensures var d := HandleParkingLlm(Standard(replyLanguages, isoCountry), x, t, frame, Composed(text, "it"));
            d.Some? && d.value.body == Written(text, {"it"}) && d.value.language == "it" && !OneLanguage(d.value.whole)
  {
    var tables := Standard(replyLanguages, isoCountry);
    SureIsChosen(replyLanguages, isoCountry, x, "it", "it");
    NormalIsReported(replyLanguages, isoCountry, "it");
    PlainBase("it");
    HouseModelReply(tables, x, t, frame, Composed(text, "it"), FRAME_LANGUAGES, NAME_LANGUAGES);
  }

  // ---------------------------------------------------------------- whose text is used

  /** An override or a confident detection names another language than the model claims. */
  predicate Overruled(tables: Tables, x: Inputs, claim: string) {
    if tables.normalize(x.override) != "" then tables.normalize(x.override) != claim
    else Confident(Detected(x)) && Detected(x).value.language != claim
  }

  /** The model's text is used exactly when there is one, and its claim is accepted and not overruled. */
  lemma ModelTextIsUsedIff(tables: Tables, x: Inputs, llm: Composed)
    requires Normalizes(tables) && x.mode == Reactive
    ensures UsesModelText(tables, x, llm) <==>
            llm.text != "" && NormalizeReply(tables, llm.claimed).Some? &&
            !Overruled(tables, x, NormalizeReply(tables, llm.claimed).value)
  {
    assert tables.normalize(tables.normalize(llm.claimed)) == tables.normalize(llm.claimed);
    ChosenIsNamed(tables, x, "");
  }

  /** An accepted claim keeps the model's text in the claimed language unless it is overruled, and then the
      reply is recorded in another language. */
  lemma ModelTextIsKept(tables: Tables, x: Inputs, t: Template, frame: Frame, llm: Composed)
    requires Normalizes(tables) && x.mode == Reactive && llm.text != ""
    requires NormalizeReply(tables, llm.claimed).Some?
    ensures var claim := NormalizeReply(tables, llm.claimed).value;
            var d := HandleParkingLlm(tables, x, t, frame, llm);
            var text := Written(llm.text, {claim});
            if Overruled(tables, x, claim) then d.Some? ==> d.value.language != claim
            else d == Some(Draft(text, claim, FormatReply(frame, text, claim)))
  {
    assert tables.normalize(tables.normalize(llm.claimed)) == tables.normalize(llm.claimed);
    ModelTextIsUsedIff(tables, x, llm);
  }

  lemma ChosenIsNamed(tables: Tables, x: Inputs, reply: string)
    ensures Choose(tables, x, reply).language != ""
  {
  }
}
