/** Which texts an automatic parking reply is put together from, and how. */
module ParkingTexts {
  import opened Wrappers
  import opened Strings
  import opened LanguagePolicy
  import opened ParkingReply
  import BodyFormat
  import L = LanguagePriority

  // ---------------------------------------------------------------- one dictionary

  /** Entry number k is the first text in the language. */
  predicate FirstIn(texts: Dictionary, language: string, k: nat) {
    k < |texts| && texts[k].language == language && texts[k].text != "" &&
    forall j :: 0 <= j < k ==> texts[j].language != language || texts[j].text == ""
  }

  predicate FirstOfAll(texts: Dictionary, k: nat) {
    k < |texts| && texts[k].text != "" && forall j :: 0 <= j < k ==> texts[j].text == ""
  }

  /** The entry in the language asked for, else the English one, else the first of all; none of a silent one. */
  ghost predicate Picked(texts: Dictionary, lang: string, e: Option<Entry>) {
    if Speaks(texts, Base(lang)) then exists k: nat :: FirstIn(texts, Base(lang), k) && e == Some(texts[k])
    else if Speaks(texts, "en") then exists k: nat :: FirstIn(texts, "en", k) && e == Some(texts[k])
    else if e.Some? then exists k: nat :: FirstOfAll(texts, k) && e == Some(texts[k])
    else forall j :: 0 <= j < |texts| ==> texts[j].text == ""
  }

  lemma {:induction false} EntryIsFirst(texts: Dictionary, language: string) returns (k: nat)
    requires EntryOf(texts, language).Some?
    ensures FirstIn(texts, language, k) && EntryOf(texts, language) == Some(texts[k])
  {
    if texts[0].language == language && texts[0].text != "" {
      k := 0;
    } else {
      k := EntryIsFirst(texts[1..], language);
      assert forall j :: 0 < j < |texts| ==> texts[j] == texts[1..][j - 1];
      k := k + 1;
    }
  }

  lemma {:induction false} SpokenIsFirst(texts: Dictionary) returns (k: nat)
    requires FirstSpoken(texts).Some?
    ensures FirstOfAll(texts, k) && FirstSpoken(texts) == Some(texts[k])
  {
    if texts[0].text != "" {
      k := 0;
    } else {
      k := SpokenIsFirst(texts[1..]);
      assert forall j :: 0 < j < |texts| ==> texts[j] == texts[1..][j - 1];
      k := k + 1;
    }
  }

  /** What a dictionary says is the entry so picked. */
  lemma TextIsPicked(texts: Dictionary, lang: string)
    ensures Picked(texts, lang, TextForLang(texts, lang))
    ensures Said(texts, lang) == match TextForLang(texts, lang)
                                 case Some(e) => Written(e.text, {e.language})
                                 case None => Written("", {})
  {
    if Speaks(texts, Base(lang)) {
      var k := EntryIsFirst(texts, Base(lang));
    } else if Speaks(texts, "en") {
      var k := EntryIsFirst(texts, "en");
    } else if FirstSpoken(texts).Some? {
      var k := SpokenIsFirst(texts);
    }
  }

  /** The base of a language tag: what stands before the first dash, in lower case; English for none. */
  lemma BaseIs(a: string, b: string)
    requires '-' !in a
    ensures Base(a) == (if a == "" then "en" else Lower(a)) && Base(a + "-" + b) == Lower(a)
  {
    BeforeDashOfPlain(a);
    L.BeforeDashOfDashed(a, b);
    if a == "" { BeforeDashOfPlain("en"); }
  }

  // ---------------------------------------------------------------- the template

  /** The details that say something, in order, and what they say. */
  ghost predicate ShownDetails(details: seq<Detail>, lang: string, ix: seq<nat>, shown: seq<string>, n: nat)
    requires n <= |details|
  {
    |ix| == |shown| && (forall a, b :: 0 <= a < b < |ix| ==> ix[a] < ix[b]) &&
    (forall i :: i in ix <==> 0 <= i < n && SaidBy(details[i], lang).text != "") &&
    forall a :: 0 <= a < |ix| ==> ix[a] < n && shown[a] == SaidBy(details[ix[a]], lang).text
  }

  lemma TextsOfMore(parts: seq<Written>, last: Written)
    ensures TextsOf(parts + [last]) == TextsOf(parts) + [last.text]
  {
  }

  lemma {:induction false} DetailsAreShown(details: seq<Detail>, lang: string, n: nat) returns (ix: seq<nat>)
    requires n <= |details|
    ensures ShownDetails(details, lang, ix, TextsOf(DetailParts(details[..n], lang)), n)
  {
    ix := [];
    if n > 0 {
      var k := n - 1;
      ix := DetailsAreShown(details, lang, k);
      assert details[..n][..k] == details[..k] && details[..n][k] == details[k];
      var last := SaidBy(details[k], lang);
      if last.text != "" {
        TextsOfMore(DetailParts(details[..k], lang), last);
        ix := ix + [k];
      } else {
        assert DetailParts(details[..k], lang) + [] == DetailParts(details[..k], lang);
      }
    }
  }

  /** The template reply is the heading and the details that say something, or when none does the stored text; in
      front of it stands the prefix, if there is one and something to stand in front of. */
  lemma TemplateText(t: Template, lang: string) returns (ix: seq<nat>, shown: seq<string>)
    ensures ShownDetails(t.details, lang, ix, shown, |t.details|)
    ensures var bare := if shown == [] then Said(t.stored, lang).text
                        else Said(t.heading, lang).text + " " + BodyFormat.Join(". ", shown) + ".";
            RenderParkingReplyText(t, lang).text ==
            if bare == "" || t.prefix.None? then bare else Said(t.prefix.value, lang).text + bare
  {
    ix := DetailsAreShown(t.details, lang, |t.details|);
    assert t.details[..|t.details|] == t.details;
    shown := TextsOf(DetailParts(t.details, lang));
  }

  // ---------------------------------------------------------------- the whole reply

  /** Greeting with the booker's name or the default one, body and sign-off, each picked in the recorded language. */
  ghost predicate PutTogether(frame: Frame, d: Draft) {
    var name := if frame.firstName.Some? then frame.firstName.value else Said(frame.defaultName, d.language).text;
    d.whole.text == frame.fill(Said(frame.greeting, d.language).text, name) + "\n\n" + d.body.text + "\n\n" +
                    Said(frame.signOff, d.language).text + "\n" + frame.tail
  }

  /** The reply is recorded in the language that is chosen with the claim, or without one, and chosen again with
      itself; it is the model's text or the template in that language, and nothing is sent for an empty one. */
  lemma ReplyIs(tables: Tables, x: Inputs, t: Template, frame: Frame, llm: Composed)
    requires Normalizes(tables) && x.mode == Reactive
    ensures var d := HandleParkingLlm(tables, x, t, frame, llm);
            var first := Choose(tables, x, Reported(tables, llm.claimed)).language;
            if UsesModelText(tables, x, llm) then
              d.Some? && d.value.body.text == llm.text && d.value.language == first && PutTogether(frame, d.value)
            else TemplateSent(tables, x, t, frame, first, d)
    ensures var lang := Choose(tables, x, "").language;
            TemplateSent(tables, x, t, frame, lang, HandleParkingFallback(tables, x, t, frame))
  {
  }

  ghost predicate TemplateSent(tables: Tables, x: Inputs, t: Template, frame: Frame, first: string, d: Option<Draft>) {
    var lang := Choose(tables, x, first).language;
    var body := RenderParkingReplyText(t, lang);
    if body.text == "" then d.None?
    else d.Some? && d.value.language == lang && d.value.body == body && PutTogether(frame, d.value)
  }
}
