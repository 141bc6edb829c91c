/** Replacement cases of invoices: the guards of `clean` and `save`, the constraints of the table, and
    the shape of the graph that leads from an original invoice to its replacement. */
module InvoiceReplacements {
  import opened Wrappers

  datatype Status = Open | Completed | Cancelled

  /** The write-once columns on the original issuer; empty ones may be filled. */
  datatype Evidence = Evidence(oib: string, source: string, recordedBy: Option<nat>, recordedAt: Option<int>)

  datatype Case = Case(tenant: Option<nat>, reservation: nat, original: nat, storno: Option<nat>,
                       replacement: Option<nat>,
                       status: Status, openedBy: nat, openedAt: int, evidence: Evidence,
                       completedBy: Option<nat>, completedAt: Option<int>,
                       cancelledBy: Option<nat>, cancelledAt: Option<int>, cancelReason: string)

  datatype Invoice = Invoice(tenant: nat, reservation: nat)

  type Table = map<nat, Case>

  datatype Context = Context(tenantOf: nat -> nat, invoice: nat -> Invoice, fieldsOk: Case -> bool)

  datatype Save = Save(pk: Option<nat>, freshPk: nat, obj: Case)

  // ---------------------------------------------------------------- one save

  function WithTenant(cx: Context, c: Case): Case {
    if c.tenant.None? then c.(tenant := Some(cx.tenantOf(c.reservation))) else c
  }

  predicate SameScope(cx: Context, c: Case, invoice: nat) {
    cx.invoice(invoice).reservation == c.reservation && Some(cx.invoice(invoice).tenant) == c.tenant
  }

  /** `clean` */
  predicate Clean(cx: Context, c: Case) {
    c.tenant == Some(cx.tenantOf(c.reservation)) && SameScope(cx, c, c.original) &&
    (c.storno.Some? ==> SameScope(cx, c, c.storno.value)) &&
    (c.replacement.Some? ==> SameScope(cx, c, c.replacement.value))
  }

  /** The guards of `save`: who opened it and when is fixed, evidence is written once. */
  predicate MayFollow(previous: Option<Case>, c: Case) {
    previous.Some? ==>
      var p := previous.value;
      p.openedBy == c.openedBy && p.openedAt == c.openedAt &&
      (p.evidence.oib != "" ==> c.evidence.oib == p.evidence.oib) &&
      (p.evidence.source != "" ==> c.evidence.source == p.evidence.source) &&
      (p.evidence.recordedBy.Some? ==> c.evidence.recordedBy == p.evidence.recordedBy) &&
      (p.evidence.recordedAt.Some? ==> c.evidence.recordedAt == p.evidence.recordedAt)
  }

  /** billing_ir_status_links_and_audit */
  predicate StatusFits(c: Case) {
    match c.status
    case Open =>
      c.replacement.None? && c.completedBy.None? && c.completedAt.None? && c.cancelledBy.None? && c.cancelledAt.None? &&
      c.cancelReason == ""
    case Completed =>
      c.storno.Some? && c.replacement.Some? && c.completedBy.Some? && c.completedAt.Some? &&
      c.cancelledBy.None? && c.cancelledAt.None?
    case Cancelled =>
      c.storno.None? && c.replacement.None? && c.cancelledBy.Some? && c.cancelledAt.Some? &&
      c.completedBy.None? && c.completedAt.None? && c.cancelReason != ""
  }

  /** The check constraints of one row. */
  predicate Checked(c: Case) {
    StatusFits(c) &&
    c.storno != Some(c.original) && c.replacement != Some(c.original) &&
    (c.storno.Some? && c.replacement.Some? ==> c.storno != c.replacement) &&
    (c.evidence.recordedBy.Some? <==> c.evidence.recordedAt.Some?)
  }

  /** Two rows that the unique indexes forbid side by side. */
  predicate Clash(a: Case, b: Case) {
    (a.status == Open && b.status == Open && (a.reservation == b.reservation || a.original == b.original)) ||
    (a.status == Completed && b.status == Completed && a.original == b.original) ||
    (a.storno.Some? && a.storno == b.storno) ||
    (a.replacement.Some? && a.replacement == b.replacement)
  }

  function Stored(t: Table, pk: Option<nat>): Option<Case> {
    if pk.Some? && pk.value in t then Some(t[pk.value]) else None
  }

  predicate Accepts(cx: Context, t: Table, s: Save) {
    var c, pk := WithTenant(cx, s.obj), s.pk.GetOr(s.freshPk);
    MayFollow(Stored(t, s.pk), c) && cx.fieldsOk(c) && Clean(cx, c) && Checked(c) &&
    (s.pk.None? ==> s.freshPk !in t) && forall k :: k in t && k != pk ==> !Clash(c, t[k])
  }

  function After(cx: Context, t: Table, s: Save): Table {
    if Accepts(cx, t, s) then t[s.pk.GetOr(s.freshPk) := WithTenant(cx, s.obj)] else t
  }

  function AfterAll(cx: Context, t: Table, saves: seq<Save>): Table {
    if saves == [] then t else After(cx, AfterAll(cx, t, saves[..|saves| - 1]), saves[|saves| - 1])
  }

  // ---------------------------------------------------------------- what every run keeps

  ghost predicate Good(cx: Context, t: Table) {
    (forall k :: k in t ==> Clean(cx, t[k]) && Checked(t[k])) &&
    (forall j, k :: j in t && k in t && j != k ==> !Clash(t[j], t[k]))
  }

  /** Nothing goes away, and who opened a case, when, and its evidence stay. */
  ghost predicate Respects(t: Table, t': Table) {
    forall k :: k in t ==> k in t' && MayFollow(Some(t[k]), t'[k])
  }

  lemma ClashSymmetric(a: Case, b: Case)
    ensures Clash(a, b) <==> Clash(b, a)
  {
  }

  lemma SaveKeepsGood(cx: Context, t: Table, s: Save)
    requires Good(cx, t)
    ensures Good(cx, After(cx, t, s)) && Respects(t, After(cx, t, s))
  {
    var t' := After(cx, t, s);
    forall j, k | j in t' && k in t' && j != k ensures !Clash(t'[j], t'[k]) {
      ClashSymmetric(t'[j], t'[k]);
      if j in t && k in t { assert !Clash(t[j], t[k]); }
    }
  }

  lemma RespectsTrans(a: Table, b: Table, c: Table)
    requires Respects(a, b) && Respects(b, c)
    ensures Respects(a, c)
  {
    forall k | k in a ensures k in c && MayFollow(Some(a[k]), c[k]) {
      assert MayFollow(Some(b[k]), c[k]);
    }
  }

  lemma {:induction false} RunKeepsGood(cx: Context, t: Table, saves: seq<Save>)
    requires Good(cx, t)
    ensures Good(cx, AfterAll(cx, t, saves)) && Respects(t, AfterAll(cx, t, saves))
  {
    if saves != [] {
      var n := |saves| - 1;
      RunKeepsGood(cx, t, saves[..n]);
      var before := AfterAll(cx, t, saves[..n]);
      SaveKeepsGood(cx, before, saves[n]);
      RespectsTrans(t, before, After(cx, before, saves[n]));
    }
  }

  // ---------------------------------------------------------------- the replacement graph

  ghost predicate Replaces(t: Table, a: nat, b: nat) {
    exists k :: k in t && t[k].status == Completed && t[k].original == a && t[k].replacement == Some(b)
  }

  /** Completed cases lead from an original to one replacement, and no two originals to the same one;
      both lie in one reservation and differ. */
  lemma PartialInjection(cx: Context, t: Table, a: nat, b: nat, a': nat, b': nat)
    requires Good(cx, t) && Replaces(t, a, b) && Replaces(t, a', b')
    ensures a == a' <==> b == b'
    ensures a != b && cx.invoice(a).reservation == cx.invoice(b).reservation
  {
    var k :| k in t && t[k].status == Completed && t[k].original == a && t[k].replacement == Some(b);
    var k' :| k' in t && t[k'].status == Completed && t[k'].original == a' && t[k'].replacement == Some(b');
    assert k != k' ==> !Clash(t[k], t[k']);
  }

  /** A walk from original to replacement. */
  ghost predicate Walk(t: Table, p: seq<nat>) {
    p != [] && forall i :: 0 <= i < |p| - 1 ==> Replaces(t, p[i], p[i + 1])
  }

  /** An invoice that replaces nothing. */
  ghost predicate Root(t: Table, a: nat) {
    forall x :: !Replaces(t, x, a)
  }

  lemma OnlyTheFirstIsRoot(t: Table, p: seq<nat>, i: nat)
    requires Walk(t, p) && i < |p|
    ensures i > 0 ==> !Root(t, p[i])
  {
    if i > 0 { assert Replaces(t, p[i - 1], p[i - 1 + 1]); }
  }

  lemma {:induction false} WalksMeetOnce(cx: Context, t: Table, p: seq<nat>, q: seq<nat>, i: nat, j: nat)
    requires Good(cx, t) && Walk(t, p) && Walk(t, q) && Root(t, p[0]) && Root(t, q[0])
    requires i < |p| && j < |q| && p[i] == q[j]
    ensures i == j && p[0] == q[0]
  {
    OnlyTheFirstIsRoot(t, p, i);
    OnlyTheFirstIsRoot(t, q, j);
    if i > 0 && j > 0 {
      assert Replaces(t, p[i - 1], p[i - 1 + 1]) && Replaces(t, q[j - 1], q[j - 1 + 1]);
      PartialInjection(cx, t, p[i - 1], p[i], q[j - 1], q[j]);
      WalksMeetOnce(cx, t, p, q, i - 1, j - 1);
    }
  }

  /** A walk from an invoice that is nobody's replacement never comes back to an invoice. */
  lemma NoRepeats(cx: Context, t: Table, p: seq<nat>)
    requires Good(cx, t) && Walk(t, p) && Root(t, p[0])
    ensures forall i, j :: 0 <= i < j < |p| ==> p[i] != p[j]
  {
    forall i, j | 0 <= i < j < |p| ensures p[i] != p[j] {
      if p[i] == p[j] { WalksMeetOnce(cx, t, p, p, i, j); }
    }
  }

  /** Walks from two different such invoices have no invoice in common. */
  lemma RootsNeverMeet(cx: Context, t: Table, p: seq<nat>, q: seq<nat>)
    requires Good(cx, t) && Walk(t, p) && Walk(t, q) && Root(t, p[0]) && Root(t, q[0]) && p[0] != q[0]
    ensures forall i, j :: 0 <= i < |p| && 0 <= j < |q| ==> p[i] != q[j]
  {
    forall i, j | 0 <= i < |p| && 0 <= j < |q| ensures p[i] != q[j] {
      if p[i] == q[j] { WalksMeetOnce(cx, t, p, q, i, j); }
    }
  }

  lemma {:induction false} DistinctBounded(p: seq<nat>, s: set<nat>)
    requires (forall i :: 0 <= i < |p| ==> p[i] in s) && forall i, j :: 0 <= i < j < |p| ==> p[i] != p[j]
    ensures |p| <= |s|
  {
    if p != [] {
      var n := |p| - 1;
      DistinctBounded(p[..n], s - {p[n]});
    }
  }

  lemma {:induction false} OriginalsBounded(t: Table, keys: set<nat>)
    requires keys <= t.Keys
    ensures |set k | k in keys :: t[k].original| <= |keys|
  {
    if keys != {} {
      var x :| x in keys;
      var rest := keys - {x};
      OriginalsBounded(t, rest);
      var all, some := set k | k in keys :: t[k].original, set k | k in rest :: t[k].original;
      assert all == some + {t[x].original};
    }
  }

  ghost predicate Repeats(p: seq<nat>) {
    exists i, j :: 0 <= i < j < |p| && p[i] == p[j]
  }

  ghost function Originals(t: Table): set<nat> {
    set k | k in t.Keys :: t[k].original
  }

  /** A walk with more steps than there are cases comes by an invoice twice. */
  lemma LongWalksRepeat(t: Table, p: seq<nat>)
    requires Walk(t, p) && |p| > |t| + 1
    ensures Repeats(p)
  {
    var front := p[..|p| - 1];
    forall i | 0 <= i < |front| ensures front[i] in Originals(t) {
      assert Replaces(t, p[i], p[i + 1]);
    }
    OriginalsBounded(t, t.Keys);
    if forall i, j :: 0 <= i < j < |front| ==> front[i] != front[j] {
      DistinctBounded(front, Originals(t));
    } else {
      var i, j :| 0 <= i < j < |front| && front[i] == front[j];
      assert p[i] == p[j];
    }
  }

  /** Every walk from such an invoice ends: it is at most one longer than there are cases. */
  lemma WalksEnd(cx: Context, t: Table, p: seq<nat>)
    requires Good(cx, t) && Walk(t, p) && Root(t, p[0])
    ensures |p| <= |t| + 1
  {
    NoRepeats(cx, t, p);
    if |p| > |t| + 1 { LongWalksRepeat(t, p); }
  }

  /** A walk stays inside the reservation of its first invoice. */
  lemma {:induction false} WalkStaysInside(cx: Context, t: Table, p: seq<nat>, i: nat)
    requires Good(cx, t) && Walk(t, p) && i < |p|
    ensures cx.invoice(p[i]).reservation == cx.invoice(p[0]).reservation
  {
    if i > 0 {
      WalkStaysInside(cx, t, p, i - 1);
      assert Replaces(t, p[i - 1], p[i - 1 + 1]);
      PartialInjection(cx, t, p[i - 1], p[i], p[i - 1], p[i]);
    }
  }

  // ---------------------------------------------------------------- chains and cycles

  /** The invoice is reached from one that is nobody's replacement. */
  ghost predicate OnChain(t: Table, a: nat) {
    exists q :: ChainTo(t, q, a)
  }

  ghost predicate ChainTo(t: Table, q: seq<nat>, a: nat) {
    Walk(t, q) && Root(t, q[0]) && q[|q| - 1] == a
  }

  /** A walk leads from the invoice back to it. */
  ghost predicate OnCycle(t: Table, a: nat) {
    exists p :: CycleAt(t, p, a)
  }

  ghost predicate CycleAt(t: Table, p: seq<nat>, a: nat) {
    Walk(t, p) && |p| > 1 && p[0] == a && p[|p| - 1] == a
  }

  ghost predicate WalkTo(t: Table, p: seq<nat>, a: nat) {
    Walk(t, p) && p[|p| - 1] == a
  }

  /** Going back from an invoice that is on no chain never stops. */
  lemma {:induction false} WalkBack(t: Table, a: nat, n: nat) returns (p: seq<nat>)
    requires !OnChain(t, a)
    ensures |p| == n + 1 && WalkTo(t, p, a)
  {
    if n == 0 {
      p := [a];
    } else {
      var rest := WalkBack(t, a, n - 1);
      assert !ChainTo(t, rest, a);
      var x :| Replaces(t, x, rest[0]);
      p := [x] + rest;
      forall i | 0 <= i < |p| - 1 ensures Replaces(t, p[i], p[i + 1]) {
        if i > 0 { assert Replaces(t, rest[i - 1], rest[i - 1 + 1]); }
      }
    }
  }

  /** Once a walk repeats itself it does so to its end. */
  lemma {:induction false} RepeatGoesOn(cx: Context, t: Table, p: seq<nat>, i: nat, j: nat)
    requires Good(cx, t) && Walk(t, p) && i < j < |p| && p[i] == p[j]
    ensures p[|p| - 1 - (j - i)] == p[|p| - 1]
    decreases |p| - j
  {
    if j < |p| - 1 {
      assert Replaces(t, p[i], p[i + 1]) && Replaces(t, p[j], p[j + 1]);
      PartialInjection(cx, t, p[i], p[i + 1], p[j], p[j + 1]);
      RepeatGoesOn(cx, t, p, i + 1, j + 1);
    }
  }

  lemma WalkFrom(t: Table, p: seq<nat>, i: nat)
    requires Walk(t, p) && i < |p|
    ensures Walk(t, p[i..])
  {
    forall k | 0 <= k < |p[i..]| - 1 ensures Replaces(t, p[i..][k], p[i..][k + 1]) {
      assert Replaces(t, p[i + k], p[i + k + 1]);
    }
  }

  lemma OffChainIsOnCycle(cx: Context, t: Table, a: nat)
    requires Good(cx, t) && !OnChain(t, a)
    ensures OnCycle(t, a)
  {
    var p := WalkBack(t, a, |t| + 1);
    LongWalksRepeat(t, p);
    var i, j :| 0 <= i < j < |p| && p[i] == p[j];
    RepeatGoesOn(cx, t, p, i, j);
    WalkFrom(t, p, |p| - 1 - (j - i));
    assert CycleAt(t, p[|p| - 1 - (j - i)..], a);
  }

  lemma Joined(t: Table, q: seq<nat>, p: seq<nat>)
    requires Walk(t, q) && Walk(t, p) && q[|q| - 1] == p[0]
    ensures Walk(t, q + p[1..])
  {
    var w := q + p[1..];
    forall i | 0 <= i < |w| - 1 ensures Replaces(t, w[i], w[i + 1]) {
      if i < |q| - 1 {
        assert Replaces(t, q[i], q[i + 1]);
      } else {
        var k := i - (|q| - 1);
        assert Replaces(t, p[k], p[k + 1]);
      }
    }
  }

  /** No walk from an invoice on a chain repeats itself. */
  lemma ChainsAreFree(cx: Context, t: Table, q: seq<nat>, p: seq<nat>)
    requires Good(cx, t) && Walk(t, p) && ChainTo(t, q, p[0])
    ensures !Repeats(p)
  {
    Joined(t, q, p);
    var w := q + p[1..];
    NoRepeats(cx, t, w);
    assert forall i :: 0 <= i < |p| ==> w[|q| - 1 + i] == p[i];
  }

  /** The walks from an invoice are free of repeats exactly when going back from it, from replacement to
      original, ends at an invoice that is nobody's replacement. */
  lemma WalksAreFreeIff(cx: Context, t: Table, a: nat)
    requires Good(cx, t)
    ensures (forall p :: Walk(t, p) && p[0] == a ==> !Repeats(p)) <==> OnChain(t, a)
  {
    if OnChain(t, a) {
      var q :| ChainTo(t, q, a);
      forall p | Walk(t, p) && p[0] == a ensures !Repeats(p) { ChainsAreFree(cx, t, q, p); }
    } else {
      OffChainIsOnCycle(cx, t, a);
      var p :| CycleAt(t, p, a);
      assert Repeats(p);
    }
  }

  /** The graph falls apart into chains and cycles: every invoice lies on a chain from exactly one
      invoice that is nobody's replacement, or on a cycle, and not on both. */
  lemma ChainsAndCycles(cx: Context, t: Table, a: nat)
    requires Good(cx, t)
    ensures OnChain(t, a) <==> !OnCycle(t, a)
    ensures forall q, q' :: ChainTo(t, q, a) && ChainTo(t, q', a) ==> q == q'
  {
    WalksAreFreeIff(cx, t, a);
    if OnCycle(t, a) {
      var p :| CycleAt(t, p, a);
      assert Repeats(p);
    } else if !OnChain(t, a) {
      OffChainIsOnCycle(cx, t, a);
    }
    forall q, q' | ChainTo(t, q, a) && ChainTo(t, q', a) ensures q == q' {
      WalksMeetOnce(cx, t, q, q', |q| - 1, |q'| - 1);
      SameChain(cx, t, q, q', |q|);
    }
  }

  lemma {:induction false} SameChain(cx: Context, t: Table, q: seq<nat>, q': seq<nat>, n: nat)
    requires Good(cx, t) && Walk(t, q) && Walk(t, q') && q[0] == q'[0] && n <= |q| == |q'|
    ensures q[..n] == q'[..n]
  {
    if n > 0 {
      SameChain(cx, t, q, q', n - 1);
      if n > 1 {
        assert Replaces(t, q[n - 2], q[n - 2 + 1]) && Replaces(t, q'[n - 2], q'[n - 2 + 1]);
        assert q[..n - 1][n - 2] == q'[..n - 1][n - 2];
        PartialInjection(cx, t, q[n - 2], q[n - 1], q'[n - 2], q'[n - 1]);
      }
      assert q[..n] == q[..n - 1] + [q[n - 1]] && q'[..n] == q'[..n - 1] + [q'[n - 1]];
    }
  }

  lemma TwoSaves(cx: Context, a: Case, b: Case)
    requires a.tenant.Some? && b.tenant.Some?
    requires Accepts(cx, map[], Save(None, 1, a)) && Accepts(cx, map[1 := a], Save(None, 2, b))
    ensures AfterAll(cx, map[], [Save(None, 1, a), Save(None, 2, b)]) == map[1 := a, 2 := b]
  {
    var saves := [Save(None, 1, a), Save(None, 2, b)];
    assert saves[..1] == [Save(None, 1, a)] && saves[..1][..0] == [];
    assert AfterAll(cx, map[], saves[..1][..0]) == map[];
    assert AfterAll(cx, map[], saves[..1]) == map[1 := a];
  }

  /** Two completed cases that lead from one invoice to the other and back. */
  lemma ThereAndBack(t: Table, i: nat, j: nat, x: nat, y: nat)
    requires i in t && t[i].status == Completed && t[i].original == x && t[i].replacement == Some(y)
    requires j in t && t[j].status == Completed && t[j].original == y && t[j].replacement == Some(x)
    ensures OnCycle(t, x)
  {
    assert Replaces(t, x, y) && Replaces(t, y, x);
    assert CycleAt(t, [x, y, x], x);
  }

  /** A completed case of reservation 5 and tenant 1. */
  function Completing(original: nat, storno: nat, replacement: nat): Case {
    Case(Some(1), 5, original, Some(storno), Some(replacement), Completed, 2, 0, Evidence("", "", None, None),
         Some(2), Some(1), None, None, "")
  }

  /** Cycles are not ruled out: the guards and constraints accept two invoices that replace each other. */
  lemma CyclesAreAdmitted()
    ensures var cx := Context((r: nat) => 1, (i: nat) => Invoice(1, 5), (c: Case) => true);
            var saves := [Save(None, 1, Completing(10, 30, 20)), Save(None, 2, Completing(20, 31, 10))];
            var t := AfterAll(cx, map[], saves);
            Good(cx, t) && OnCycle(t, 10) && OnCycle(t, 20)
  {
    var cx := Context((r: nat) => 1, (i: nat) => Invoice(1, 5), (c: Case) => true);
    var a, b := Completing(10, 30, 20), Completing(20, 31, 10);
    TwoSaves(cx, a, b);
    RunKeepsGood(cx, map[], [Save(None, 1, a), Save(None, 2, b)]);
    ThereAndBack(map[1 := a, 2 := b], 1, 2, 10, 20);
    ThereAndBack(map[1 := a, 2 := b], 2, 1, 20, 10);
  }

  // ---------------------------------------------------------------- the table in place

  class CaseTable {
    const cx: Context
    var rows: Table

    constructor (cx: Context)
      ensures this.cx == cx && rows == map[] && Good(cx, rows)
    {
      this.cx := cx;
      rows := map[];
    }

    /** `clean`; false is the validation error. */
    method CleanRow(c: Case) returns (ok: bool, cleaned: Case)
      ensures cleaned == WithTenant(cx, c)
      ensures ok <==> Clean(cx, cleaned)
    {
      cleaned := c;
      if cleaned.tenant.None? {
        cleaned := cleaned.(tenant := Some(cx.tenantOf(c.reservation)));
      } else if cleaned.tenant != Some(cx.tenantOf(c.reservation)) {
        return false, cleaned;
      }
      if !SameScope(cx, cleaned, cleaned.original) { return false, cleaned; }
      if cleaned.storno.Some? && !SameScope(cx, cleaned, cleaned.storno.value) { return false, cleaned; }
      if cleaned.replacement.Some? && !SameScope(cx, cleaned, cleaned.replacement.value) { return false, cleaned; }
      return true, cleaned;
    }

    /** `save`; false is a validation error or a violated constraint. */
    method SaveRow(s: Save) returns (ok: bool)
      modifies this`rows
      ensures ok <==> Accepts(cx, old(rows), s)
      ensures rows == After(cx, old(rows), s)
    {
      var row := WithTenant(cx, s.obj);
      if !MayFollow(Stored(rows, s.pk), row) { return false; }
      var clean, cleaned := CleanRow(row);
      if !clean || !cx.fieldsOk(cleaned) || !Checked(cleaned) { return false; }
      var pk := s.pk.GetOr(s.freshPk);
      if s.pk.None? && s.freshPk in rows { return false; }
      if exists k :: k in rows && k != pk && Clash(cleaned, rows[k]) { return false; }
      rows := rows[pk := cleaned];
      return true;
    }
  }
}
