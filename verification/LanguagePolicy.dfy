/** Choosing the language of a reply to a guest. */
module LanguagePolicy {
  import opened Wrappers
  import opened Strings

  const CANONICAL_LANGUAGE_DEFAULT: string := "en"
  const MESSAGE_OVERRIDES_LLM_THRESHOLD: real := 0.85

  datatype Mode = Reactive | Proactive

  datatype LanguageSource =
    Override | ReplyLanguage | FromMessage | FromConversation | FromCountry | TenantDefault | Fallback

  datatype Detection = Detection(language: string, confidence: real)

  /** Everything `choose` looks at except the language the model reports for its reply. */
  datatype Inputs = Inputs(mode: Mode, override: string, detection: Option<Detection>, conversation: string,
                           country: string, tenantDefault: string, propertyLanguage: string)

  /** The accepted reply languages, how a country name becomes an ISO code, and how a language code is
      normalised. The first two may be any; the third is NormalizeCode, see Standard. */
  datatype Tables = Tables(replyLanguages: set<string>, isoCountry: string -> string, normalize: string -> string)

  datatype Choice = Choice(language: string, source: LanguageSource)

  // ---------------------------------------------------------------- codes

  /** `split("-")[0]` */
  function BeforeDash(s: string): (r: string)
    ensures '-' !in r
  {
    if s == "" || s[0] == '-' then "" else [s[0]] + BeforeDash(s[1..])
  }

  /** normalize_iso639_1 */
  function NormalizeCode(raw: string): string {
    Lower(Strip(BeforeDash(raw)))
  }

  function Standard(replyLanguages: set<string>, isoCountry: string -> string): Tables {
    Tables(replyLanguages, isoCountry, NormalizeCode)
  }

  /** normalize_reply_language */
  function NormalizeReply(tables: Tables, raw: string): Option<string> {
    var base := tables.normalize(raw);
    if base == "" || base !in tables.replyLanguages then None else Some(base)
  }

  /** language_from_country */
  function LanguageFromCountry(tables: Tables, country: string): string {
    var code := tables.isoCountry(country);
    if code in {"HR", "RS", "BA", "ME", "SI", "MK"} then "hr"
    else if code in {"DE", "AT", "CH", "LI"} then "de"
    else if code in {"ES", "MX", "AR", "CO", "CL", "PE", "VE", "EC", "UY", "PY", "BO", "CR", "PA", "DO", "GT", "HN",
                     "NI", "SV", "CU", "PR"} then "es"
    else if code in {"FR", "MC", "LU"} then "fr"
    else if code == "IT" then "it"
    else if code == "PL" then "pl"
    else if code == "RO" then "ro"
    else if code == "NL" then "nl"
    else if code == "CZ" then "cs"
    else if code == "HU" then "hu"
    else if code == "UA" then "ua"
    else if code == "PT" then "pt"
    else if code == "GR" then "el"
    else if code == "SK" then "sk"
    else CANONICAL_LANGUAGE_DEFAULT
  }

  // ---------------------------------------------------------------- the choice

  function Detected(x: Inputs): Option<Detection> {
    if x.detection.Some? && x.detection.value.language !in {"", "unknown"} then x.detection else None
  }

  predicate Confident(d: Option<Detection>) {
    d.Some? && d.value.confidence >= MESSAGE_OVERRIDES_LLM_THRESHOLD
  }

  /** What comes after the reply language in a reactive choice. */
  function ChooseLate(tables: Tables, x: Inputs): Choice {
    if x.mode == Reactive && Detected(x).Some? then Choice(Detected(x).value.language, FromMessage)
    else if x.mode == Reactive && x.conversation != "" then Choice(x.conversation, FromConversation)
    else
      var country := tables.isoCountry(x.country);
      if country != "" then Choice(LanguageFromCountry(tables, country), FromCountry)
      else if tables.normalize(x.tenantDefault) != "" then Choice(tables.normalize(x.tenantDefault), TenantDefault)
      else if tables.normalize(x.propertyLanguage) != "" then
        Choice(tables.normalize(x.propertyLanguage), TenantDefault)
      else Choice(CANONICAL_LANGUAGE_DEFAULT, Fallback)
  }

  /** `choose`, with the language reported for the reply. */
  function Choose(tables: Tables, x: Inputs, reply: string): Choice {
    if tables.normalize(x.override) != "" then Choice(tables.normalize(x.override), Override)
    else if x.mode == Reactive && Confident(Detected(x)) then Choice(Detected(x).value.language, FromMessage)
    else if x.mode == Reactive && NormalizeReply(tables, reply).Some? then
      Choice(NormalizeReply(tables, reply).value, ReplyLanguage)
    else ChooseLate(tables, x)
  }

  // ---------------------------------------------------------------- feeding the choice back

  lemma {:induction false} BeforeDashOfPlain(s: string)
    requires '-' !in s
    ensures BeforeDash(s) == s
  {
    if s != "" {
      assert s == [s[0]] + s[1..] && s[0] in s;
      BeforeDashOfPlain(s[1..]);
    }
  }

  lemma LowerTwice(s: string)
    ensures Lower(Lower(s)) == Lower(s)
  {
  }

  lemma StripAvoids(s: string, c: char)
    requires c !in s
    ensures c !in Strip(s)
  {
    var l := StripLeft(s);
    StripLeftDrops(s);
    StripRightDrops(l);
    assert forall i :: 0 <= i < |l| ==> l[i] in s;
    var r := StripRight(l);
    assert forall i :: 0 <= i < |r| ==> r[i] == l[i];
  }

  lemma LowerStaysTrimmed(s: string)
    requires Trimmed(s) && '-' !in s
    ensures Trimmed(Lower(s)) && '-' !in Lower(s)
  {
    var code := Lower(s);
    assert forall i :: 0 <= i < |code| ==> code[i] == LowerChar(s[i]) && s[i] in s;
  }

  /** Of a code without a dash or outer spaces only the case is changed. */
  lemma NormalizePlain(code: string)
    requires Trimmed(code) && '-' !in code
    ensures NormalizeCode(code) == Lower(code)
  {
    BeforeDashOfPlain(code);
    StripOfTrimmed(code);
  }

  /** Normalising a code twice is normalising it once. */
  lemma NormalizeTwice(raw: string)
    ensures NormalizeCode(NormalizeCode(raw)) == NormalizeCode(raw)
  {
    var stripped := Strip(BeforeDash(raw));
    StripIsTrimmed(BeforeDash(raw));
    StripAvoids(BeforeDash(raw), '-');
    LowerStaysTrimmed(stripped);
    LowerTwice(stripped);
    NormalizePlain(Lower(stripped));
  }

  predicate TwoLowerLetters(code: string) {
    |code| == 2 && 'a' <= code[0] <= 'z' && 'a' <= code[1] <= 'z'
  }

  /** The normaliser is idempotent and leaves two lower-case letters alone. */
  ghost predicate Normalizes(tables: Tables) {
    (forall raw :: tables.normalize(tables.normalize(raw)) == tables.normalize(raw)) &&
    forall code :: TwoLowerLetters(code) ==> tables.normalize(code) == code
  }

  lemma StandardNormalizes(replyLanguages: set<string>, isoCountry: string -> string)
    ensures Normalizes(Standard(replyLanguages, isoCountry))
  {
    forall raw ensures NormalizeCode(NormalizeCode(raw)) == NormalizeCode(raw) { NormalizeTwice(raw); }
    forall code | TwoLowerLetters(code) ensures NormalizeCode(code) == code {
      assert Lower(code) == code;
      NormalizePlain(code);
    }
  }

  // ---------------------------------------------------------------- the fixed point

  /** The reply language is not looked at: an override, a confident detection, or a proactive mail. */
  predicate IgnoresReply(tables: Tables, x: Inputs) {
    x.mode == Proactive || tables.normalize(x.override) != "" || Confident(Detected(x))
  }

  /** The code is one the reply language may name, but not as it would be normalised. */
  predicate Sloppy(tables: Tables, code: string) {
    NormalizeReply(tables, code).Some? && tables.normalize(code) != code
  }

  /** Only a stored or detected code can be chosen without having been normalised. */
  lemma LateCodes(tables: Tables, x: Inputs)
    requires Normalizes(tables)
    ensures var c := ChooseLate(tables, x);
            c.source != FromMessage && c.source != FromConversation ==> tables.normalize(c.language) == c.language
  {
    assert TwoLowerLetters(LanguageFromCountry(tables, tables.isoCountry(x.country)));
    assert TwoLowerLetters(CANONICAL_LANGUAGE_DEFAULT);
  }

  /** A sloppy code can only come from the stored conversation language or an unsure detection. */
  lemma SloppyIsStored(tables: Tables, x: Inputs, reply: string)
    requires Normalizes(tables) && !IgnoresReply(tables, x) && Sloppy(tables, Choose(tables, x, reply).language)
    ensures Choose(tables, x, reply) == Choice(x.conversation, FromConversation) ||
            (Detected(x).Some? && Choose(tables, x, reply) == Choice(Detected(x).value.language, FromMessage))
  {
    assert tables.normalize(tables.normalize(reply)) == tables.normalize(reply);
    LateCodes(tables, x);
  }

  /** The code a reactive choice takes over as it stands, a detected one before a stored one, is sloppy. */
  predicate TakesSloppyCode(tables: Tables, x: Inputs) {
    if Detected(x).Some? then Sloppy(tables, Detected(x).value.language)
    else x.conversation != "" && Sloppy(tables, x.conversation)
  }

  /** Feeding the chosen language back as the reply language chooses it again exactly when the reply
      language is not looked at, or the first one was accepted, or there is no sloppy code to take over. */
  lemma FixedPointIff(tables: Tables, x: Inputs, reply: string)
    requires Normalizes(tables)
    ensures var code := Choose(tables, x, reply).language;
            Choose(tables, x, code).language == code <==>
            IgnoresReply(tables, x) || NormalizeReply(tables, reply).Some? || !TakesSloppyCode(tables, x)
  {
    assert tables.normalize(tables.normalize(reply)) == tables.normalize(reply);
    LateCodes(tables, x);
  }

  /** The detected and the stored code are as they would be normalised. */
  predicate NormalCodes(tables: Tables, x: Inputs) {
    tables.normalize(x.conversation) == x.conversation &&
    (Detected(x).Some? ==> tables.normalize(Detected(x).value.language) == Detected(x).value.language)
  }

  /** With normalised stored and detected codes the choice is a fixed point on every path. */
  lemma FixedPoint(tables: Tables, x: Inputs, reply: string)
    requires Normalizes(tables) && NormalCodes(tables, x)
    ensures var code := Choose(tables, x, reply).language; Choose(tables, x, code).language == code
  {
    FixedPointIff(tables, x, reply);
  }

  /** Feeding back once more always settles. */
  lemma SettlesInTwo(tables: Tables, x: Inputs, reply: string)
    requires Normalizes(tables)
    ensures var once := Choose(tables, x, reply).language;
            var twice := Choose(tables, x, once).language;
            Choose(tables, x, twice).language == twice
  {
    var once := Choose(tables, x, reply).language;
    assert tables.normalize(tables.normalize(once)) == tables.normalize(once);
    FixedPointIff(tables, x, reply);
    FixedPointIff(tables, x, once);
  }

  lemma NormalizeBlank()
    ensures NormalizeCode("") == ""
  {
    NormalizePlain("");
  }

  predicate TwoUpperLetters(code: string) {
    |code| == 2 && 'A' <= code[0] <= 'Z' && 'A' <= code[1] <= 'Z'
  }

  lemma UpperCaseIsSloppy(replyLanguages: set<string>, isoCountry: string -> string, code: string)
    requires TwoUpperLetters(code) && Lower(code) in replyLanguages
    ensures Sloppy(Standard(replyLanguages, isoCountry), code)
  {
    assert Trimmed(code) && '-' !in code;
    NormalizePlain(code);
    assert Lower(code)[0] != code[0];
  }

  /** `choose` itself takes any code: a stored one in upper case would be chosen as it is and come back in
      lower case. No conversation has one, see FixedPointInUse. */
  lemma UpperCaseWouldNotBeFixed(replyLanguages: set<string>, isoCountry: string -> string, x: Inputs)
    requires x.mode == Reactive && x.override == "" && Detected(x).None?
    requires TwoUpperLetters(x.conversation) && Lower(x.conversation) in replyLanguages
    ensures var tables := Standard(replyLanguages, isoCountry);
            Choose(tables, x, "").language == x.conversation &&
            Choose(tables, x, x.conversation).language == Lower(x.conversation) != x.conversation
  {
    NormalizeBlank();
    UpperCaseIsSloppy(replyLanguages, isoCountry, x.conversation);
    NormalizePlain(x.conversation);
  }

  // ---------------------------------------------------------------- the stored language

  const CONVERSATION_UPDATE_THRESHOLD: real := 0.65

  /** What `detect` may answer: one of its two-letter codes, or that it does not know. */
  predicate DetectorAnswer(d: Detection) {
    d.language == "unknown" || TwoLowerLetters(d.language)
  }

  function FirstEight(s: string): string {
    if |s| <= 8 then s else s[..8]
  }

  /** conversation_language_store.maybe_update, on the language stored so far */
  function MaybeUpdate(stored: string, d: Detection): string {
    if d.confidence < CONVERSATION_UPDATE_THRESHOLD || d.language in {"", "unknown"} then stored
    else FirstEight(d.language)
  }

  /** The stored language after the messages of a conversation, none at first. */
  function StoredAfter(messages: seq<Detection>): string {
    if messages == [] then "" else MaybeUpdate(StoredAfter(messages[..|messages| - 1]), messages[|messages| - 1])
  }

  lemma {:induction false} StoredIsDetected(messages: seq<Detection>)
    requires forall d :: d in messages ==> DetectorAnswer(d)
    ensures StoredAfter(messages) == "" || TwoLowerLetters(StoredAfter(messages))
  {
    if messages != [] {
      StoredIsDetected(messages[..|messages| - 1]);
      assert DetectorAnswer(messages[|messages| - 1]);
    }
  }

  /** Whatever messages a conversation held, with the language they left stored and the detector's answer
      on the message at hand the choice is a fixed point. */
  lemma FixedPointInUse(replyLanguages: set<string>, isoCountry: string -> string, messages: seq<Detection>,
                        x: Inputs, reply: string)
    requires forall d :: d in messages ==> DetectorAnswer(d)
    requires x.detection.Some? ==> DetectorAnswer(x.detection.value)
    requires x.conversation == Strip(StoredAfter(messages))
    ensures var tables := Standard(replyLanguages, isoCountry);
            var code := Choose(tables, x, reply).language; Choose(tables, x, code).language == code
  {
    var tables := Standard(replyLanguages, isoCountry);
    StandardNormalizes(replyLanguages, isoCountry);
    StoredIsDetected(messages);
    StripOfTrimmed(StoredAfter(messages));
    NormalizeBlank();
    assert TwoLowerLetters(x.conversation) ==> tables.normalize(x.conversation) == x.conversation;
    FixedPoint(tables, x, reply);
  }
}
