/** Which saves of a replacement case are accepted, said column by column and of the other rows. */
module ReplacementRules {
  import opened Wrappers
  import opened InvoiceReplacements

  /** Each column is set in just the statuses it belongs to. */
  predicate ColumnsFit(c: Case) {
    (c.replacement.Some? <==> c.status == Completed) &&
    (c.completedBy.Some? <==> c.status == Completed) && (c.completedAt.Some? <==> c.status == Completed) &&
    (c.cancelledBy.Some? <==> c.status == Cancelled) && (c.cancelledAt.Some? <==> c.status == Cancelled) &&
    (c.status == Completed ==> c.storno.Some?) && (c.status == Cancelled ==> c.storno.None? && c.cancelReason != "") &&
    (c.status == Open ==> c.cancelReason == "") &&
    (c.evidence.recordedBy.Some? <==> c.evidence.recordedAt.Some?)
  }

  /** The invoice is one that the case names. */
  predicate Names(c: Case, invoice: nat) {
    invoice == c.original || c.storno == Some(invoice) || c.replacement == Some(invoice)
  }

  /** The invoices of the case are different ones, all of its reservation and that one's tenant. */
  ghost predicate InvoicesFit(cx: Context, c: Case) {
    c.storno != Some(c.original) && c.replacement != Some(c.original) &&
    (c.storno.Some? ==> c.storno != c.replacement) &&
    forall i :: Names(c, i) ==> cx.invoice(i) == Invoice(cx.tenantOf(c.reservation), c.reservation)
  }

  /** No other case is open or completed for the same original beside this one, open for the same reservation, or
      uses one of its invoices for the same purpose. */
  ghost predicate LeavesRoom(c: Case, other: Case) {
    (c.original == other.original && c.status == other.status ==> c.status == Cancelled) &&
    (c.reservation == other.reservation && c.status == other.status ==> c.status != Open) &&
    (c.storno == other.storno ==> c.storno.None?) && (c.replacement == other.replacement ==> c.replacement.None?)
  }

  /** A column of a text that is written once. */
  predicate TextKept(before: string, now: string) {
    before == "" || now == before
  }

  predicate ValueKept<T(==)>(before: Option<T>, now: Option<T>) {
    before.None? || now == before
  }

  /** Who opened the stored case and when is the same, and evidence that is there stays. */
  predicate OpeningKept(p: Case, c: Case) {
    c.openedBy == p.openedBy && c.openedAt == p.openedAt &&
    TextKept(p.evidence.oib, c.evidence.oib) && TextKept(p.evidence.source, c.evidence.source) &&
    ValueKept(p.evidence.recordedBy, c.evidence.recordedBy) && ValueKept(p.evidence.recordedAt, c.evidence.recordedAt)
  }

  function Written(cx: Context, s: Save): Case {
    s.obj.(tenant := Some(cx.tenantOf(s.obj.reservation)))
  }

  function Place(s: Save): nat {
    if s.pk.Some? then s.pk.value else s.freshPk
  }

  ghost predicate MayReplace(t: Table, s: Save) {
    if s.pk.None? then s.freshPk !in t else s.pk.value in t ==> OpeningKept(t[s.pk.value], s.obj)
  }

  lemma ScopeIff(cx: Context, c: Case)
    requires c.tenant == Some(cx.tenantOf(c.reservation))
    ensures Clean(cx, c) <==>
            forall i :: Names(c, i) ==> cx.invoice(i) == Invoice(cx.tenantOf(c.reservation), c.reservation)
  {
    forall i ensures SameScope(cx, c, i) <==> cx.invoice(i) == Invoice(cx.tenantOf(c.reservation), c.reservation) {
    }
    assert Names(c, c.original);
    assert c.storno.Some? ==> Names(c, c.storno.value);
    assert c.replacement.Some? ==> Names(c, c.replacement.value);
  }

  lemma RoomIff(c: Case, other: Case)
    ensures !Clash(c, other) <==> LeavesRoom(c, other)
  {
  }

  /** A save is accepted exactly when its columns fit its status, its invoices fit its reservation, it keeps the
      opening of the stored case, and the other cases leave room; then the table has the case as saved, in its
      reservation's tenant, and nothing else changes. */
  lemma SaveDecides(cx: Context, t: Table, s: Save)
    ensures Accepts(cx, t, s) <==>
            (s.obj.tenant.None? || s.obj.tenant.value == cx.tenantOf(s.obj.reservation)) &&
            cx.fieldsOk(Written(cx, s)) && ColumnsFit(s.obj) && InvoicesFit(cx, s.obj) && MayReplace(t, s) &&
            forall k :: k in t && k != Place(s) ==> LeavesRoom(s.obj, t[k])
    ensures After(cx, t, s) == if Accepts(cx, t, s) then t[Place(s) := Written(cx, s)] else t
  {
    var c := Written(cx, s);
    ScopeIff(cx, c);
    assert forall i :: Names(c, i) <==> Names(s.obj, i);
    forall k | k in t ensures !Clash(c, t[k]) <==> LeavesRoom(s.obj, t[k]) { RoomIff(c, t[k]); }
  }

  /** Over every run of saves the opening of a case and its evidence stay. */
  lemma OpeningStays(cx: Context, t: Table, saves: seq<Save>, k: nat)
    requires Good(cx, t) && k in t
    ensures k in AfterAll(cx, t, saves) && OpeningKept(t[k], AfterAll(cx, t, saves)[k])
  {
    RunKeepsGood(cx, t, saves);
  }
}
