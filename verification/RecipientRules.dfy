/** Which saves of an invoice recipient are accepted, said of columns, characters and the other rows. */
module RecipientRules {
  import opened Wrappers
  import opened Strings
  import opened BillingRecipients

  predicate HasInk(s: string) {
    exists i :: 0 <= i < |s| && !IsSpace(s[i])
  }

  predicate TwoLetters(s: string) {
    |s| == 2 && ('a' <= s[0] <= 'z' || 'A' <= s[0] <= 'Z') && ('a' <= s[1] <= 'z' || 'A' <= s[1] <= 'Z')
  }

  /** How many characters of the text are digits. */
  function Digits(s: string): nat {
    var m := multiset(s);
    m['0'] + m['1'] + m['2'] + m['3'] + m['4'] + m['5'] + m['6'] + m['7'] + m['8'] + m['9']
  }

  /** All that a ready recipient needs: the eight texts, two countries of two letters, and eleven digits in a
      Croatian tax number. */
  predicate CompleteDraft(d: Draft) {
    HasInk(d.companyName) && HasInk(d.taxId) && HasInk(d.address) && HasInk(d.postalCode) && HasInk(d.city) &&
    HasInk(d.email) && TwoLetters(Strip(d.taxIdCountry)) && TwoLetters(Strip(d.country)) &&
    (Lower(Strip(d.taxIdCountry)) == "hr" ==> Digits(d.taxId) == 11)
  }

  lemma TextIffInk(s: string)
    ensures HasText(s) <==> HasInk(s)
  {
    StripIsBlank(s);
  }

  lemma DigitsOfConcat(a: string, b: string)
    ensures Digits(a + b) == Digits(a) + Digits(b)
  {
    assert multiset(a + b) == multiset(a) + multiset(b);
  }

  lemma DigitsOfOne(c: char)
    ensures Digits([c]) == if '0' <= c <= '9' then 1 else 0
  {
  }

  lemma {:induction false} CountIsDigits(s: string)
    ensures CountDigits(s) == Digits(s)
  {
    if s != "" {
      CountIsDigits(s[1..]);
      assert s == [s[0]] + s[1..];
      DigitsOfConcat([s[0]], s[1..]);
      DigitsOfOne(s[0]);
    }
  }

  lemma DigitsOfSpace(s: string)
    requires AllSpace(s)
    ensures Digits(s) == 0
  {
    assert forall c :: c in multiset(s) ==> c in s;
  }

  lemma DigitsOfLeft(s: string)
    ensures Digits(StripLeft(s)) == Digits(s)
  {
    var rest := StripLeft(s);
    StripLeftDrops(s);
    assert s == s[..|s| - |rest|] + rest;
    DigitsOfConcat(s[..|s| - |rest|], rest);
    DigitsOfSpace(s[..|s| - |rest|]);
  }

  lemma DigitsOfRight(s: string)
    ensures Digits(StripRight(s)) == Digits(s)
  {
    var rest := StripRight(s);
    StripRightDrops(s);
    assert s == rest + s[|rest|..];
    DigitsOfConcat(rest, s[|rest|..]);
    DigitsOfSpace(s[|rest|..]);
  }

  lemma DigitsOfStripped(s: string)
    ensures Digits(Strip(s)) == Digits(s)
  {
    DigitsOfLeft(s);
    DigitsOfRight(StripLeft(s));
  }

  lemma CountryIs(code: string)
    ensures NormalizeCountry(code).Some? <==> TwoLetters(Strip(code))
    ensures NormalizeCountry(code) == Some("HR") <==> Lower(Strip(code)) == "hr"
    ensures TwoLetters(Strip(code)) ==> HasText(code)
  {
    var s := Strip(code);
    if Lower(s) == "hr" {
      assert LowerChar(s[0]) == Lower(s)[0] && LowerChar(s[1]) == Lower(s)[1];
    }
  }

  /** Ready means complete. */
  lemma ReadyIsComplete(d: Draft)
    ensures StructurallyReady(d) <==> CompleteDraft(d)
  {
    TextIffInk(d.companyName);
    TextIffInk(d.taxId);
    TextIffInk(d.address);
    TextIffInk(d.postalCode);
    TextIffInk(d.city);
    TextIffInk(d.email);
    CountryIs(d.taxIdCountry);
    CountryIs(d.country);
    CountIsDigits(Strip(d.taxId));
    DigitsOfStripped(d.taxId);
  }

  /** The row that a save writes, and where. */
  function Written(cx: Context, s: Save): Recipient {
    s.obj.(tenant := Some(cx.tenantOf(s.obj.reservation)))
  }

  function Place(s: Save): nat {
    if s.pk.Some? then s.pk.value else s.freshPk
  }

  /** The other rows of the table leave room for the row. */
  ghost predicate HasRoom(t: Table, pk: nat, r: Recipient) {
    (r.status != Applied ==>
       forall k :: k in t && k != pk && t[k].reservation == r.reservation ==> t[k].status == Applied) &&
    (r.appliedInvoice.Some? ==> forall k :: k in t && k != pk ==> t[k].appliedInvoice != r.appliedInvoice)
  }

  /** The save's own columns are in order. */
  ghost predicate InOrder(cx: Context, s: Save) {
    var r := s.obj;
    (r.tenant.None? || r.tenant.value == cx.tenantOf(r.reservation)) && cx.fieldsOk(Written(cx, s)) &&
    (HasInk(r.draft.companyName) || HasInk(r.draft.taxId) || HasInk(r.draft.sourceExcerpt)) &&
    (r.status == Ready ==> CompleteDraft(r.draft)) &&
    (r.status == Applied ==> r.appliedInvoice.Some? && s.allowApply) && (r.status != Applied ==> r.appliedInvoice.None?)
  }

  /** The stored row, if any, is not applied and keeps its request time; a new row gets a key of its own. */
  ghost predicate MayReplace(t: Table, s: Save) {
    if s.pk.None? then s.freshPk !in t
    else s.pk.value in t ==> t[s.pk.value].status != Applied && t[s.pk.value].requestedAt == s.obj.requestedAt
  }

  /** A save is accepted exactly when its columns are in order, it may replace what is stored and the other rows
      leave room; then the table has the row as saved, in its reservation's tenant, and nothing else changes. */
  lemma SaveDecides(cx: Context, t: Table, s: Save)
    ensures Accepts(cx, t, s) <==> InOrder(cx, s) && MayReplace(t, s) && HasRoom(t, Place(s), s.obj)
    ensures After(cx, t, s) == if Accepts(cx, t, s) then t[Place(s) := Written(cx, s)] else t
  {
    ReadyIsComplete(s.obj.draft);
    TextIffInk(s.obj.draft.companyName);
    TextIffInk(s.obj.draft.taxId);
    TextIffInk(s.obj.draft.sourceExcerpt);
  }
}
