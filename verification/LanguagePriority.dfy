/** The order in which a reply language is looked for, and what is kept of a conversation. */
module LanguagePriority {
  import opened Wrappers
  import opened Strings
  import opened LanguagePolicy

  predicate Known(d: Detection) {
    d.language != "" && d.language != "unknown"
  }

  /** What place number k in the order of preference has to offer. */
  predicate Offers(tables: Tables, x: Inputs, reply: string, k: nat, c: Choice) {
    match k
    case 0 => tables.normalize(x.override) != "" && c == Choice(tables.normalize(x.override), Override)
    case 1 =>
      x.mode == Reactive && x.detection.Some? && Known(x.detection.value) && x.detection.value.confidence >= 0.85 &&
      c == Choice(x.detection.value.language, FromMessage)
    case 2 =>
      x.mode == Reactive && tables.normalize(reply) != "" && tables.normalize(reply) in tables.replyLanguages &&
      c == Choice(tables.normalize(reply), ReplyLanguage)
    case 3 =>
      x.mode == Reactive && x.detection.Some? && Known(x.detection.value) &&
      c == Choice(x.detection.value.language, FromMessage)
    case 4 => x.mode == Reactive && x.conversation != "" && c == Choice(x.conversation, FromConversation)
    case 5 =>
      tables.isoCountry(x.country) != "" &&
      c == Choice(LanguageFromCountry(tables, tables.isoCountry(x.country)), FromCountry)
    case 6 => tables.normalize(x.tenantDefault) != "" && c == Choice(tables.normalize(x.tenantDefault), TenantDefault)
    case 7 =>
      tables.normalize(x.propertyLanguage) != "" && c == Choice(tables.normalize(x.propertyLanguage), TenantDefault)
    case _ => c == Choice("en", Fallback)
  }

  /** `choose` takes the first offer in that order. */
  lemma ChooseIsFirst(tables: Tables, x: Inputs, reply: string) returns (k: nat)
    ensures Offers(tables, x, reply, k, Choose(tables, x, reply))
    ensures forall j: nat, c :: j < k ==> !Offers(tables, x, reply, j, c)
  {
    k := if tables.normalize(x.override) != "" then 0
         else if x.mode == Reactive && Confident(Detected(x)) then 1
         else if x.mode == Reactive && NormalizeReply(tables, reply).Some? then 2
         else if x.mode == Reactive && Detected(x).Some? then 3
         else if x.mode == Reactive && x.conversation != "" then 4
         else if tables.isoCountry(x.country) != "" then 5
         else if tables.normalize(x.tenantDefault) != "" then 6
         else if tables.normalize(x.propertyLanguage) != "" then 7
         else 8;
  }

  /** The countries that are written to in each language; everywhere else it is English. */
  lemma CountrySpeaks(tables: Tables, country: string)
    ensures var code, language := tables.isoCountry(country), LanguageFromCountry(tables, country);
            (language == "hr" <==> code in {"HR", "BA", "ME", "MK", "RS", "SI"}) &&
            (language == "de" <==> code in {"AT", "CH", "DE", "LI"}) &&
            (language == "fr" <==> code in {"FR", "LU", "MC"}) &&
            (language == "es" <==>
               code in {"AR", "BO", "CL", "CO", "CR", "CU", "DO", "EC", "ES", "GT", "HN", "MX", "NI", "PA", "PE", "PR",
                        "PY", "SV", "UY", "VE"})
    ensures var code, language := tables.isoCountry(country), LanguageFromCountry(tables, country);
            (language == "it" <==> code == "IT") && (language == "pl" <==> code == "PL") &&
            (language == "ro" <==> code == "RO") && (language == "nl" <==> code == "NL") &&
            (language == "cs" <==> code == "CZ") && (language == "hu" <==> code == "HU") &&
            (language == "ua" <==> code == "UA") && (language == "pt" <==> code == "PT") &&
            (language == "el" <==> code == "GR") && (language == "sk" <==> code == "SK")
    ensures LanguageFromCountry(tables, country) in
            {"hr", "de", "es", "fr", "it", "pl", "ro", "nl", "cs", "hu", "ua", "pt", "el", "sk", "en"}
  {
  }

  // ---------------------------------------------------------------- codes

  lemma {:induction false} BeforeDashOfDashed(a: string, b: string)
    requires '-' !in a
    ensures BeforeDash(a + "-" + b) == a
  {
    if a != "" {
      assert a == [a[0]] + a[1..] && (a + "-" + b)[1..] == a[1..] + "-" + b;
      BeforeDashOfDashed(a[1..], b);
    }
  }

  /** A normalised code is what stands before the first dash, trimmed and in lower case. */
  lemma NormalizeIs(a: string, b: string)
    requires '-' !in a
    ensures NormalizeCode(a) == Lower(Strip(a)) && NormalizeCode(a + "-" + b) == Lower(Strip(a))
  {
    BeforeDashOfPlain(a);
    BeforeDashOfDashed(a, b);
  }

  // ---------------------------------------------------------------- the stored language

  predicate IsKept(d: Detection) {
    Known(d) && d.confidence >= 0.65
  }

  /** A conversation keeps the language of its last message that was told with confidence, cut to eight
      characters; none when there is no such message. */
  lemma {:induction false} StoredIsLast(messages: seq<Detection>) returns (k: int)
    ensures -1 <= k < |messages| && (forall j :: k < j < |messages| ==> !IsKept(messages[j]))
    ensures if k < 0 then StoredAfter(messages) == ""
            else IsKept(messages[k]) && StoredAfter(messages) <= messages[k].language &&
                 (|StoredAfter(messages)| == 8 || StoredAfter(messages) == messages[k].language) &&
                 |StoredAfter(messages)| <= 8
  {
    k := -1;
    if messages != [] {
      var n := |messages| - 1;
      k := StoredIsLast(messages[..n]);
      assert forall j :: 0 <= j < n ==> messages[..n][j] == messages[j];
      if IsKept(messages[n]) { k := n; }
    }
  }
}
