/** Company invoice recipients: the guards of `clean` and `save` together with the table's unique and
    check constraints, as a transition system over whole saves. */
module BillingRecipients {
  import opened Wrappers
  import opened Strings

  datatype Status = Requested | Ready | Applied

  datatype Draft = Draft(companyName: string, taxId: string, taxIdCountry: string, country: string, address: string,
                         postalCode: string, city: string, email: string, sourceExcerpt: string)

  datatype Recipient = Recipient(tenant: Option<nat>, reservation: nat, status: Status, draft: Draft, requestedAt: int,
                                 appliedInvoice: Option<nat>)

  type Table = map<nat, Recipient>

  /** The tenant of each reservation, and the field validators (choices, lengths), which may be any. */
  datatype Context = Context(tenantOf: nat -> nat, fieldsOk: Recipient -> bool)

  /** A save of an object: with its primary key or, when it has none, the fresh one that the table gives it. */
  datatype Save = Save(pk: Option<nat>, freshPk: nat, obj: Recipient, allowApply: bool)

  // ---------------------------------------------------------------- drafts

  predicate HasText(s: string) { Strip(s) != "" }

  predicate HasAnchor(d: Draft) {
    HasText(d.companyName) || HasText(d.taxId) || HasText(d.sourceExcerpt)
  }

  predicate IsLetter(c: char) { 'a' <= LowerChar(c) <= 'z' }

  /** normalize_country, over the ASCII letters. */
  function NormalizeCountry(code: string): Option<string> {
    var s := Strip(code);
    if |s| == 2 && IsLetter(s[0]) && IsLetter(s[1]) then Some([UpperChar(s[0]), UpperChar(s[1])]) else None
  }

  function CountDigits(s: string): nat {
    if s == "" then 0 else (if '0' <= s[0] <= '9' then 1 else 0) + CountDigits(s[1..])
  }

  predicate StructurallyReady(d: Draft) {
    HasText(d.companyName) && HasText(d.taxId) && HasText(d.taxIdCountry) && HasText(d.country) &&
    HasText(d.address) && HasText(d.postalCode) && HasText(d.city) && HasText(d.email) &&
    NormalizeCountry(d.taxIdCountry).Some? && NormalizeCountry(d.country).Some? &&
    (NormalizeCountry(d.taxIdCountry) == Some("HR") ==> CountDigits(Strip(d.taxId)) == 11)
  }

  // ---------------------------------------------------------------- one save

  predicate IsOpen(r: Recipient) { r.status != Applied }

  function WithTenant(cx: Context, r: Recipient): Recipient {
    if r.tenant.None? then r.(tenant := Some(cx.tenantOf(r.reservation))) else r
  }

  /** The guards at the top of `save`, against the stored row. */
  predicate MayFollow(previous: Option<Recipient>, r: Recipient, allowApply: bool) {
    (r.status == Applied && (previous.None? || previous.value.status != Applied) ==> allowApply) &&
    (previous.Some? ==> previous.value.requestedAt == r.requestedAt && previous.value.status != Applied)
  }

  /** `clean` */
  predicate Clean(cx: Context, r: Recipient) {
    r.tenant == Some(cx.tenantOf(r.reservation)) && HasAnchor(r.draft) &&
    (r.status == Ready ==> StructurallyReady(r.draft)) &&
    (r.status == Applied <==> r.appliedInvoice.Some?)
  }

  /** The unique indexes: one open recipient per reservation, one applied recipient per invoice. */
  predicate Fits(t: Table, pk: nat, r: Recipient) {
    forall k :: k in t && k != pk ==>
      !(IsOpen(r) && IsOpen(t[k]) && t[k].reservation == r.reservation) &&
      !(r.appliedInvoice.Some? && t[k].appliedInvoice == r.appliedInvoice)
  }

  function Stored(t: Table, pk: Option<nat>): Option<Recipient> {
    if pk.Some? && pk.value in t then Some(t[pk.value]) else None
  }

  predicate Accepts(cx: Context, t: Table, s: Save) {
    var r := WithTenant(cx, s.obj);
    MayFollow(Stored(t, s.pk), r, s.allowApply) && cx.fieldsOk(r) && Clean(cx, r) &&
    (s.pk.None? ==> s.freshPk !in t) && Fits(t, s.pk.GetOr(s.freshPk), r)
  }

  /** The table after a save; a rejected one changes nothing. */
  function After(cx: Context, t: Table, s: Save): Table {
    if Accepts(cx, t, s) then t[s.pk.GetOr(s.freshPk) := WithTenant(cx, s.obj)] else t
  }

  function AfterAll(cx: Context, t: Table, saves: seq<Save>): Table {
    if saves == [] then t else After(cx, AfterAll(cx, t, saves[..|saves| - 1]), saves[|saves| - 1])
  }

  // ---------------------------------------------------------------- what every run keeps

  ghost predicate RowOk(cx: Context, r: Recipient) {
    r.tenant == Some(cx.tenantOf(r.reservation)) &&
    (r.status == Applied <==> r.appliedInvoice.Some?) && (r.status == Ready ==> StructurallyReady(r.draft))
  }

  ghost predicate Good(cx: Context, t: Table) {
    (forall k :: k in t ==> RowOk(cx, t[k])) &&
    (forall j, k :: j in t && k in t && j != k ==>
      !(IsOpen(t[j]) && IsOpen(t[k]) && t[j].reservation == t[k].reservation) &&
      !(t[j].appliedInvoice.Some? && t[j].appliedInvoice == t[k].appliedInvoice))
  }

  /** From t to t' no row went away, kept its request time, and an applied row stayed as it was. */
  ghost predicate Respects(t: Table, t': Table) {
    forall k :: k in t ==>
      k in t' && t'[k].requestedAt == t[k].requestedAt && (t[k].status == Applied ==> t'[k] == t[k])
  }

  lemma SaveKeepsGood(cx: Context, t: Table, s: Save)
    requires Good(cx, t)
    ensures Good(cx, After(cx, t, s)) && Respects(t, After(cx, t, s))
  {
  }

  /** Over every run of saves, accepted or rejected: a recipient is applied exactly when an invoice is
      linked, ready ones are complete, a reservation has at most one open recipient, an invoice at
      most one applied one, the request time never changes and an applied row is frozen. */
  lemma {:induction false} RunKeepsGood(cx: Context, t: Table, saves: seq<Save>)
    requires Good(cx, t)
    ensures Good(cx, AfterAll(cx, t, saves)) && Respects(t, AfterAll(cx, t, saves))
  {
    if saves != [] {
      var n := |saves| - 1;
      RunKeepsGood(cx, t, saves[..n]);
      var before := AfterAll(cx, t, saves[..n]);
      SaveKeepsGood(cx, before, saves[n]);
      RespectsTrans(t, before, After(cx, before, saves[n]));
    }
  }

  lemma RespectsTrans(a: Table, b: Table, c: Table)
    requires Respects(a, b) && Respects(b, c)
    ensures Respects(a, c)
  {
  }

  ghost predicate IsApplied(t: Table, k: nat) {
    k in t && t[k].status == Applied
  }

  /** An applied recipient owes its status to exactly one accepted save, made with allow_apply, and
      is since then what that save wrote. */
  lemma {:induction false} AppliedNeedsPermission(cx: Context, t: Table, saves: seq<Save>, k: nat) returns (i: nat)
    requires Good(cx, t) && !IsApplied(t, k) && IsApplied(AfterAll(cx, t, saves), k)
    ensures i < |saves| && saves[i].allowApply && saves[i].pk.GetOr(saves[i].freshPk) == k
    ensures Accepts(cx, AfterAll(cx, t, saves[..i]), saves[i])
    ensures AfterAll(cx, t, saves)[k] == WithTenant(cx, saves[i].obj)
  {
    var n := |saves| - 1;
    var before := AfterAll(cx, t, saves[..n]);
    RunKeepsGood(cx, t, saves[..n]);
    SaveKeepsGood(cx, before, saves[n]);
    if IsApplied(before, k) {
      i := AppliedNeedsPermission(cx, t, saves[..n], k);
      assert saves[..n][..i] == saves[..i];
    } else {
      i := n;
    }
  }

  // ---------------------------------------------------------------- the table in place

  class RecipientTable {
    const cx: Context
    var rows: Table

    constructor (cx: Context)
      ensures this.cx == cx && rows == map[] && Good(cx, rows)
    {
      this.cx := cx;
      rows := map[];
    }

    /** `clean`, which also fills in a missing tenant; false is the validation error. */
    method CleanRow(r: Recipient) returns (ok: bool, cleaned: Recipient)
      ensures cleaned == WithTenant(cx, r)
      ensures ok <==> Clean(cx, cleaned)
    {
      cleaned := r;
      if cleaned.tenant.None? {
        cleaned := cleaned.(tenant := Some(cx.tenantOf(r.reservation)));
      } else if cleaned.tenant != Some(cx.tenantOf(r.reservation)) {
        return false, cleaned;
      }
      if !HasAnchor(cleaned.draft) { return false, cleaned; }
      if cleaned.status == Ready && !StructurallyReady(cleaned.draft) { return false, cleaned; }
      if cleaned.status == Applied && cleaned.appliedInvoice.None? { return false, cleaned; }
      if cleaned.status != Applied && cleaned.appliedInvoice.Some? { return false, cleaned; }
      return true, cleaned;
    }

    /** `save`; false is a validation error or a violated constraint. */
    method SaveRow(s: Save) returns (ok: bool)
      modifies this`rows
      ensures ok <==> Accepts(cx, old(rows), s)
      ensures rows == After(cx, old(rows), s)
    {
      var row := WithTenant(cx, s.obj);
      var previous := Stored(rows, s.pk);
      var becomingApplied := row.status == Applied && (previous.None? || previous.value.status != Applied);
      if becomingApplied && !s.allowApply { return false; }
      if previous.Some? {
        if previous.value.requestedAt != row.requestedAt { return false; }
        if previous.value.status == Applied { return false; }
      }
      var clean, cleaned := CleanRow(row);
      if !clean || !cx.fieldsOk(cleaned) { return false; }
      var pk := s.pk.GetOr(s.freshPk);
      if (s.pk.None? && s.freshPk in rows) || !Fits(rows, pk, cleaned) { return false; }
      rows := rows[pk := cleaned];
      return true;
    }
  }
}
