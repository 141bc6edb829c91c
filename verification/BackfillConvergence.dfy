/** An apply run leaves every group it did not block settled, and settled groups stay quiet. */
module BackfillConvergence {
  import opened Wrappers
  import opened CanonicalModel
  import opened CanonicalStore
  import opened CanonicalStoreLaws
  import opened CanonicalBackfill
  import opened BackfillFrames
  import opened BackfillPrediction

  // ---------------------------------------------------------------- settled groups

  /** The raw row is found, and what is found for it is message m's. */
  ghost predicate On(s: Store, tenant: nat, raw: Raw, m: nat) {
    var l := LookupPair(s, tenant, raw);
    l.Found? && s.sources[l.source].message == m && s.sources[l.source].tenant == tenant
  }

  ghost predicate AllOn(s: Store, tenant: nat, members: seq<Raw>, m: nat) {
    forall k :: 0 <= k < |members| ==> On(s, tenant, members[k], m)
  }

  /** A visible message of the reservation's conversation. */
  ghost predicate Shown(s: Store, reservation: Reservation, m: nat) {
    Linked(s) && HomeOf(s, m, reservation) && s.messages[m].visible
  }

  /** Every member of the group is found on the one visible message m of the reservation. */
  ghost predicate Settled(s: Store, reservation: Reservation, g: Group, m: nat) {
    Shown(s, reservation, m) && AllOn(s, reservation.tenant, g.members, m)
  }

  lemma GrowthKeepsShown(s: Store, s': Store, reservation: Reservation, m: nat)
    requires Shown(s, reservation, m) && Grows(s, s') && Linked(s')
    ensures Shown(s', reservation, m)
  {
    assert Evolves(s.messages[m], s'.messages[m]);
  }

  lemma GrowthKeepsOn(s: Store, s': Store, tenant: nat, raw: Raw, m: nat, p: Raw -> bool)
    requires On(s, tenant, raw, m) && SourcesFrom(s, s', p) && forall r :: p(r) ==> !Collide(r, raw)
    ensures On(s', tenant, raw, m)
  {
    LookupPairStable(s, s', tenant, raw, p);
  }

  lemma GrowthKeepsSettled(s: Store, s': Store, reservation: Reservation, g: Group, m: nat, p: Raw -> bool)
    requires Settled(s, reservation, g, m) && GrowsBy(s, s', p)
    requires forall r, q :: p(r) && q in g.members ==> !Collide(r, q)
    ensures Settled(s', reservation, g, m)
  {
    GrowthKeepsShown(s, s', reservation, m);
    forall k | 0 <= k < |g.members| ensures On(s', reservation.tenant, g.members[k], m) {
      assert g.members[k] in g.members;
      GrowthKeepsOn(s, s', reservation.tenant, g.members[k], m, p);
    }
  }

  // ---------------------------------------------------------------- settled groups are quiet

  lemma {:induction false} SettledTally(s: Store, reservation: Reservation, members: seq<Raw>, m: nat)
    requires Shown(s, reservation, m) && AllOn(s, reservation.tenant, members, m)
    ensures TallyMembers(s, reservation, members) == Tally(if members == [] then [] else [m], [], [])
  {
    if members != [] {
      var n := |members| - 1;
      SettledTally(s, reservation, members[..n], m);
      assert On(s, reservation.tenant, members[n], m);
    }
  }

  /** A settled group resolves to its message, with nothing missing and nothing to report. */
  lemma SettledResolves(s: Store, reservation: Reservation, g: Group, m: nat)
    requires Settled(s, reservation, g, m) && g.members != []
    ensures ResolveGroup(s, reservation, g) == Resolution([m], [], Some(m), [])
  {
    SettledTally(s, reservation, g.members, m);
    assert [m][..0] == [];
    assert WithVisibility(s, [], true) == [] && WithVisibility(s, [], false) == [];
    assert WithVisibility(s, [m], true) == [m] && WithVisibility(s, [m], false) == [];
  }

  lemma {:induction false} SettledFill(s: Store, tenant: nat, m: nat, members: seq<Raw>)
    requires m < |s.messages| && AllOn(s, tenant, members, m)
    ensures FillMembers(s, s, tenant, m, members) == Filled(s, 0, 0)
  {
    if members != [] {
      var n := |members| - 1;
      SettledFill(s, tenant, m, members[..n]);
      assert On(s, tenant, members[n], m);
    }
  }

  /** Applying a settled group writes nothing at all. */
  lemma SettledApply(now: int, s: Store, reservation: Reservation, g: Group, m: nat)
    requires Settled(s, reservation, g, m) && ChannexOnBooking(s)
    ensures ApplyGroup(now, s, s, reservation, g, Some(m)) == Applied(s, 0, 0, 0)
  {
    assert FindConversation(s, reservation).Some?;
    SettledFill(s, reservation.tenant, m, g.members);
    assert HasChannex(s, m) ==> s.messages[m].(channel := Booking) == s.messages[m];
    assert s.messages[m := s.messages[m]] == s.messages;
  }

  /** Everything a later look must not change in a report. */
  ghost predicate SameFindings(a: Report, b: Report) {
    a.blocking == b.blocking && a.createdMessages == b.createdMessages && a.createdSources == b.createdSources &&
    a.healedSources == b.healedSources && a.wouldCreateMessages == b.wouldCreateMessages &&
    a.wouldCreateSources == b.wouldCreateSources
  }

  /** A todo whose group is settled on the message it resolved to. */
  ghost predicate Calm(s: Store, reservation: Reservation, todo: Todo) {
    todo.resolution.visible.Some? && todo.resolution.missing == [] &&
    Settled(s, reservation, todo.group, todo.resolution.visible.value)
  }

  lemma CalmHandle(mode: Mode, now: int, s: Store, reservation: Reservation, p: Progress, todo: Todo)
    requires Calm(s, reservation, todo) && ChannexOnBooking(s) && p.store == s
    ensures var p' := Handle(mode, now, s, reservation, p, todo); p'.store == s && SameFindings(p.report, p'.report)
  {
    SettledApply(now, s, reservation, todo.group, todo.resolution.visible.value);
  }

  lemma {:induction false} CalmHandleAll(mode: Mode, now: int, s: Store, reservation: Reservation, todos: seq<Todo>,
                                         report: Report)
    requires Linked(s) && ChannexOnBooking(s) && Fit(s, todos)
    requires forall i :: 0 <= i < |todos| ==> Calm(s, reservation, todos[i])
    ensures var p := HandleAll(mode, now, s, reservation, todos, report); p.store == s && SameFindings(report, p.report)
  {
    if todos != [] {
      var n := |todos| - 1;
      CalmHandleAll(mode, now, s, reservation, todos[..n], report);
      CalmHandle(mode, now, s, reservation, HandleAll(mode, now, s, reservation, todos[..n], report), todos[n]);
    }
  }

  // ---------------------------------------------------------------- a reservation at rest

  /** Group k, unless it is blocked, is settled on what it resolved to. */
  ghost predicate CalmAt(s: Store, w: Work, rs: seq<Resolution>, k: nat)
    requires k < |rs| == |w.groups|
  {
    !Blocked(rs, k) ==> Calm(s, w.reservation, Todo(k, w.groups[k], rs[k]))
  }

  /** Every group that resolving the reservation does not block is settled on what it resolves to. */
  ghost predicate AtRest(s: Store, w: Work) {
    Linked(s) && forall k :: 0 <= k < |w.groups| ==> CalmAt(s, w, Resolutions(s, w), k)
  }

  /** What the first two loops report about a reservation. */
  function Findings(s: Store, w: Work): seq<Anomaly>
    requires Linked(s)
  {
    ResolveAnomalies(w, Resolutions(s, w), |w.groups|) + CrossAnomalies(w.reservation, Resolutions(s, w), |s.messages|)
  }

  /** The report after a step that found what the first two loops find and wrote nothing. */
  ghost predicate OnlyFinds(a: Report, b: Report, findings: seq<Anomaly>) {
    SameFindings(a.(blocking := a.blocking + findings), b)
  }

  lemma CalmTodos(s: Store, w: Work, rs: seq<Resolution>)
    requires |rs| == |w.groups| && forall k :: 0 <= k < |rs| ==> CalmAt(s, w, rs, k)
    ensures forall i :: 0 <= i < |Unblocked(w, rs, |rs|)| ==> Calm(s, w.reservation, Unblocked(w, rs, |rs|)[i])
  {
    var todos := Unblocked(w, rs, |rs|);
    forall i | 0 <= i < |todos| ensures Calm(s, w.reservation, todos[i]) {
      assert CalmAt(s, w, rs, OpenIndexes(rs, |rs|)[i]);
    }
  }

  lemma PhaseOneFinds(s: Store, w: Work, report: Report)
    requires Linked(s)
    ensures var start := AfterPhaseOne(w, Resolutions(s, w), |s.messages|, report);
            start.blocking == report.blocking + Findings(s, w) && OnlyFinds(report, start, Findings(s, w))
  {
  }

  /** Processing a reservation at rest in any mode changes no row, creates and heals nothing, and reports
      again just what resolving it reports. */
  lemma RestingProcess(mode: Mode, now: int, s: Store, w: Work, report: Report)
    requires AtRest(s, w) && ChannexOnBooking(s)
    ensures var p := ProcessReservation(mode, now, s, w, report);
            p.store == s && OnlyFinds(report, p.report, Findings(s, w))
  {
    var rs := Resolutions(s, w);
    CalmTodos(s, w, rs);
    CalmHandleAll(mode, now, s, w.reservation, Unblocked(w, rs, |rs|), AfterPhaseOne(w, rs, |s.messages|, report));
    PhaseOneFinds(s, w, report);
  }

  lemma GrowthKeepsCalm(s: Store, s': Store, w: Work, rs: seq<Resolution>, k: nat, p: Raw -> bool)
    requires k < |rs| == |w.groups| && CalmAt(s, w, rs, k) && GrowsBy(s, s', p)
    requires forall r, q :: p(r) && MemberOf(w, q) ==> !Collide(r, q)
    ensures CalmAt(s', w, rs, k)
  {
    if !Blocked(rs, k) {
      forall r, q | p(r) && q in w.groups[k].members ensures !Collide(r, q) { assert MemberOf(w, q); }
      GrowthKeepsSettled(s, s', w.reservation, w.groups[k], rs[k].visible.value, p);
    }
  }

  /** Rows of strangers do not disturb a reservation at rest, nor what is found about it. */
  lemma GrowthKeepsRest(s: Store, s': Store, w: Work, p: Raw -> bool)
    requires AtRest(s, w) && GrowsBy(s, s', p) && forall r, q :: p(r) && MemberOf(w, q) ==> !Collide(r, q)
    ensures AtRest(s', w) && Findings(s', w) == Findings(s, w)
  {
    GrowthKeepsResolutions(s, s', w, p);
    CrossesInTable(s, w, |s'.messages|);
    forall k | 0 <= k < |w.groups| ensures CalmAt(s', w, Resolutions(s', w), k) {
      GrowthKeepsCalm(s, s', w, Resolutions(s, w), k, p);
    }
  }

  // ---------------------------------------------------------------- applying settles

  /** No two members of the group can collide. */
  ghost predicate Distinct(members: seq<Raw>) {
    forall i, j :: 0 <= i < j < |members| ==> !Collide(members[i], members[j])
  }

  lemma CollideSymmetric(a: Raw, b: Raw)
    ensures Collide(a, b) <==> Collide(b, a)
  {
  }

  /** A row that nothing blocked is found on the message it was given to. */
  lemma AddedIsOn(s: Store, s': Store, tenant: nat, m: nat, raw: Raw)
    requires !Clashes(s, tenant, raw) && s'.sources == s.sources + [NewSource(tenant, m, raw)]
    ensures On(s', tenant, raw, m)
  {
    var n := |s.sources|;
    forall i | 0 <= i < n ensures !Blocks(s'.sources[i], tenant, raw) {
      assert !Blocks(s.sources[i], tenant, raw);
    }
    var byKey, byId := FindByKey(s', raw.key), FindById(s', tenant, ProviderOf(raw), CanonicalId(raw));
    assert s'.sources[n].raw.key == raw.key;
    assert byKey == Some(n);
    assert byId.Some? ==> byId.value == n;
  }

  /** What the members are when the group was resolved in s0 to message m, or to nothing. */
  ghost predicate Fillable(s0: Store, reservation: Reservation, members: seq<Raw>, m: nat) {
    forall k :: 0 <= k < |members| ==>
      members[k].reservation == Some(reservation) &&
      (LookupPair(s0, reservation.tenant, members[k]).Missing? || On(s0, reservation.tenant, members[k], m))
  }

  ghost function Or(p: Raw -> bool, members: seq<Raw>): Raw -> bool {
    (r: Raw) => p(r) || r in members
  }

  lemma FillSources(s0: Store, s: Store, tenant: nat, m: nat, front: seq<Raw>, p: Raw -> bool)
    requires Linked(s) && SourcesFrom(s0, s, p) && m < |s.messages|
    ensures SourcesFrom(s0, FillMembers(s0, s, tenant, m, front).store, Or(p, front))
  {
    FillGrows(s0, s, tenant, m, front, Or(p, front));
    SourcesFromTrans(s0, s, FillMembers(s0, s, tenant, m, front).store, Or(p, front));
  }

  lemma OrIsApart(p: Raw -> bool, members: seq<Raw>, n: nat)
    requires n < |members| && Distinct(members) && forall r, q :: p(r) && q in members ==> !Collide(r, q)
    ensures forall r :: Or(p, members[..n])(r) ==> !Collide(r, members[n])
  {
    assert members[n] in members;
    forall r | Or(p, members[..n])(r) ensures !Collide(r, members[n]) {
      if !p(r) { var i :| 0 <= i < n && members[i] == r; }
    }
  }

  /** Filling from a store that grew only by strangers puts every member on the message. */
  lemma {:induction false} FillSettles(s0: Store, s: Store, reservation: Reservation, m: nat, members: seq<Raw>,
                                       p: Raw -> bool)
    requires Core(s) && Linked(s0) && SourcesFrom(s0, s, p) && HomeOf(s, m, reservation)
    requires forall r, q :: p(r) && q in members ==> !Collide(r, q)
    requires Distinct(members) && Fillable(s0, reservation, members, m)
    ensures var s' := FillMembers(s0, s, reservation.tenant, m, members).store;
            Core(s') && HomeOf(s', m, reservation) && AllOn(s', reservation.tenant, members, m)
  {
    if members != [] {
      var n := |members| - 1;
      var front, raw := members[..n], members[n];
      FillSettles(s0, s, reservation, m, front, p);
      FillSources(s0, s, reservation.tenant, m, front, p);
      FillSettlesNext(s0, FillMembers(s0, s, reservation.tenant, m, front), reservation, m, members, p);
    }
  }

  lemma FillSettlesNext(s0: Store, f: Filled, reservation: Reservation, m: nat, members: seq<Raw>, p: Raw -> bool)
    requires members != [] && Distinct(members) && Fillable(s0, reservation, members, m)
    requires Core(f.store) && HomeOf(f.store, m, reservation) &&
             AllOn(f.store, reservation.tenant, members[..|members| - 1], m)
    requires SourcesFrom(s0, f.store, Or(p, members[..|members| - 1]))
    requires forall r, q :: p(r) && q in members ==> !Collide(r, q)
    ensures var s' := FillMember(s0, f, reservation.tenant, m, members[|members| - 1]).store;
            Core(s') && HomeOf(s', m, reservation) && AllOn(s', reservation.tenant, members, m)
  {
    var n := |members| - 1;
    OrIsApart(p, members, n);
    FillLastSettles(s0, f, reservation, m, members[..n], members[n], Or(p, members[..n]));
    assert members == members[..n] + [members[n]];
  }

  lemma FillLastSettles(s0: Store, f: Filled, reservation: Reservation, m: nat, front: seq<Raw>, raw: Raw,
                        q: Raw -> bool)
    requires Core(f.store) && SourcesFrom(s0, f.store, q) && HomeOf(f.store, m, reservation)
    requires AllOn(f.store, reservation.tenant, front, m)
    requires raw.reservation == Some(reservation)
    requires LookupPair(s0, reservation.tenant, raw).Missing? || On(s0, reservation.tenant, raw, m)
    requires forall r :: q(r) ==> !Collide(r, raw)
    requires forall r :: r in front ==> q(r)
    ensures var s' := FillMember(s0, f, reservation.tenant, m, raw).store;
            Core(s') && HomeOf(s', m, reservation) && AllOn(s', reservation.tenant, front + [raw], m)
  {
    LookupPairStable(s0, f.store, reservation.tenant, raw, q);
    if LookupPair(s0, reservation.tenant, raw).Missing? {
      AttachKeepsCore(f.store, m, raw);
      AttachAdds(f.store, reservation.tenant, m, raw);
      AttachSettles(f.store, Attach(f.store, reservation.tenant, m, f.store.messages[m], raw), reservation, m, front,
                    raw);
    } else {
      GrowthKeepsOn(s0, f.store, reservation.tenant, raw, m, q);
    }
  }

  lemma AttachSettles(s: Store, s': Store, reservation: Reservation, m: nat, front: seq<Raw>, raw: Raw)
    requires Core(s) && HomeOf(s, m, reservation) && AllOn(s, reservation.tenant, front, m)
    requires !Clashes(s, reservation.tenant, raw) && Adds(s, s', raw, reservation.tenant, m)
    requires Core(s') && s'.conversations == s.conversations && |s'.messages| == |s.messages|
    requires forall r :: r in front ==> !Collide(r, raw)
    ensures HomeOf(s', m, reservation) && AllOn(s', reservation.tenant, front + [raw], m)
  {
    AddsHome(s, s', reservation, m, raw);
    AddedIsOn(s, s', reservation.tenant, m, raw);
    FrontStaysOn(s, s', reservation.tenant, m, front, raw);
  }

  lemma AddsHome(s: Store, s': Store, reservation: Reservation, m: nat, raw: Raw)
    requires Linked(s) && Linked(s') && HomeOf(s, m, reservation) && Adds(s, s', raw, reservation.tenant, m)
    requires s'.conversations == s.conversations
    ensures HomeOf(s', m, reservation)
  {
    EnrichEvolves(s.messages[m], raw);
  }

  lemma FrontStaysOn(s: Store, s': Store, tenant: nat, m: nat, front: seq<Raw>, raw: Raw)
    requires AllOn(s, tenant, front, m) && s'.sources == s.sources + [NewSource(tenant, m, raw)]
    requires forall r :: r in front ==> !Collide(r, raw)
    ensures AllOn(s', tenant, front, m)
  {
    var only := (r: Raw) => r == raw;
    forall k | 0 <= k < |front| ensures On(s', tenant, front[k], m) {
      assert front[k] in front;
      CollideSymmetric(front[k], raw);
      GrowthKeepsOn(s, s', tenant, front[k], m, only);
    }
  }

  // ---------------------------------------------------------------- what an unblocked group looks like

  /** The message belongs to the reservation's tenant and conversation. */
  ghost predicate IdHome(s: Store, reservation: Reservation, m: nat) {
    m < |s.messages| && s.messages[m].conversation < |s.conversations| &&
    s.messages[m].tenant == reservation.tenant &&
    s.conversations[s.messages[m].conversation].reservation.pk == reservation.pk
  }

  ghost predicate MemberOpen(s: Store, reservation: Reservation, raw: Raw, ids: seq<nat>) {
    var l := LookupPair(s, reservation.tenant, raw);
    l.Missing? ||
    (l.Found? && s.sources[l.source].message in ids && s.sources[l.source].tenant == reservation.tenant)
  }

  ghost predicate TallyIsOpen(s: Store, reservation: Reservation, members: seq<Raw>, t: Tally) {
    t.anomalies == [] ==>
      (forall k :: 0 <= k < |members| ==> MemberOpen(s, reservation, members[k], t.ids)) &&
      (forall m :: m in t.ids ==> IdHome(s, reservation, m))
  }

  lemma TallyMemberOpen(s: Store, reservation: Reservation, front: seq<Raw>, t: Tally, raw: Raw)
    requires Linked(s) && TallyIsOpen(s, reservation, front, t)
    ensures TallyIsOpen(s, reservation, front + [raw], TallyMember(s, reservation, t, raw))
  {
    var t' := TallyMember(s, reservation, t, raw);
    if t'.anomalies == [] {
      QuietMember(s, reservation, t, raw);
      forall k | 0 <= k < |front| ensures MemberOpen(s, reservation, front[k], t'.ids) {
        WiderIds(s, reservation, front[k], t.ids, t'.ids);
      }
    }
  }

  lemma QuietSource(s: Store, reservation: Reservation, i: nat)
    requires Linked(s) && i < |s.sources| && SourceAnomalies(s, reservation, i) == []
    ensures s.sources[i].tenant == reservation.tenant && IdHome(s, reservation, s.sources[i].message)
  {
  }

  lemma BothEmpty<T>(xs: seq<T>, ys: seq<T>)
    requires xs + ys == []
    ensures xs == [] && ys == []
  {
    assert |xs + ys| == 0;
  }

  lemma QuietMember(s: Store, reservation: Reservation, t: Tally, raw: Raw)
    requires Linked(s) && TallyMember(s, reservation, t, raw).anomalies == []
    ensures var t' := TallyMember(s, reservation, t, raw);
            t.anomalies == [] && MemberOpen(s, reservation, raw, t'.ids) &&
            (forall m :: m in t.ids ==> m in t'.ids) &&
            (forall m :: m in t'.ids ==> m in t.ids || IdHome(s, reservation, m))
  {
    match LookupPair(s, reservation.tenant, raw)
    case Conflict => BothEmpty(t.anomalies, [IdentityConflict(reservation.pk, raw.key)]);
    case Missing =>
    case Found(i) =>
      BothEmpty(t.anomalies, SourceAnomalies(s, reservation, i));
      QuietSource(s, reservation, i);
  }

  lemma WiderIds(s: Store, reservation: Reservation, raw: Raw, ids: seq<nat>, ids': seq<nat>)
    requires MemberOpen(s, reservation, raw, ids) && forall m :: m in ids ==> m in ids'
    ensures MemberOpen(s, reservation, raw, ids')
  {
  }

  lemma {:induction false} TallyOpen(s: Store, reservation: Reservation, members: seq<Raw>)
    requires Linked(s)
    ensures TallyIsOpen(s, reservation, members, TallyMembers(s, reservation, members))
  {
    if members != [] {
      var n := |members| - 1;
      TallyOpen(s, reservation, members[..n]);
      TallyMemberOpen(s, reservation, members[..n], TallyMembers(s, reservation, members[..n]), members[n]);
      assert members == members[..n] + [members[n]];
    }
  }

  /** An unblocked group can be filled: onto its shown message, or from nothing. */
  lemma OpenGroup(s: Store, reservation: Reservation, g: Group, m: nat)
    requires Linked(s) && TenantsAgree(s) && !ResolveGroup(s, reservation, g).Blocking()
    requires forall k :: 0 <= k < |g.members| ==> g.members[k].reservation == Some(reservation)
    requires var visible := ResolveGroup(s, reservation, g).visible; visible.Some? ==> m == visible.value
    ensures Fillable(s, reservation, g.members, m)
    ensures ResolveGroup(s, reservation, g).visible.Some? ==> Shown(s, reservation, m)
  {
    UnblockedGroup(s, reservation, g);
    TallyOpen(s, reservation, g.members);
    var r := ResolveGroup(s, reservation, g);
    assert r.messageIds == TallyMembers(s, reservation, g.members).ids;
    assert r.visible.Some? ==> IdHome(s, reservation, m);
    forall k | 0 <= k < |g.members|
      ensures LookupPair(s, reservation.tenant, g.members[k]).Missing? || On(s, reservation.tenant, g.members[k], m)
    {
      assert MemberOpen(s, reservation, g.members[k], r.messageIds);
    }
  }

  // ---------------------------------------------------------------- one group applied

  /** The filled store, reconciled, is valid and has the group settled. */
  lemma FinishGroup(b: Store, f: Store, reservation: Reservation, m: nat, members: seq<Raw>)
    requires Core(b) && ChannexOnBooking(b) && forall k :: 0 <= k < |b.messages| && k != m ==> HasSource(b, k)
    requires Core(f) && OnlyOn(b, f, m) && |f.messages| == |b.messages|
    requires Shown(f, reservation, m) && AllOn(f, reservation.tenant, members, m) && members != []
    ensures Valid(ReconcileChannel(f, m))
    ensures Shown(ReconcileChannel(f, m), reservation, m) &&
            AllOn(ReconcileChannel(f, m), reservation.tenant, members, m)
  {
    forall k | 0 <= k < |f.messages| ensures HasSource(f, k) {
      if k == m {
        assert On(f, reservation.tenant, members[0], m);
      } else {
        SourcesPersist(b, f, k);
      }
    }
    FillKeepsBookingElsewhere(b, f, m);
    ReconcileRestoresBooking(f, m);
    ReconcileGrows(f, m, (r: Raw) => true);
    GrowthKeepsShown(f, ReconcileChannel(f, m), reservation, m);
    SameSourcesAllOn(f, ReconcileChannel(f, m), reservation.tenant, members, m);
  }

  lemma FillKeepsBookingElsewhere(b: Store, f: Store, m: nat)
    requires Linked(b) && Linked(f) && ChannexOnBooking(b) && OnlyOn(b, f, m)
    ensures forall i :: 0 <= i < |f.sources| && f.sources[i].message != m && f.sources[i].raw.key.kind == Channex
                        ==> f.messages[f.sources[i].message].channel == Booking
  {
    forall i | 0 <= i < |f.sources| && f.sources[i].message != m && f.sources[i].raw.key.kind == Channex
      ensures f.messages[f.sources[i].message].channel == Booking
    {
      assert f.sources[i] == b.sources[i];
    }
  }

  lemma SameSourcesAllOn(s: Store, s': Store, tenant: nat, members: seq<Raw>, m: nat)
    requires s'.sources == s.sources && AllOn(s, tenant, members, m)
    ensures AllOn(s', tenant, members, m)
  {
    forall k | 0 <= k < |members| ensures On(s', tenant, members[k], m) {
      assert On(s, tenant, members[k], m);
      GrowthKeepsOn(s, s', tenant, members[k], m, (r: Raw) => false);
    }
  }

  /** The group's rows belong to the reservation and do not collide. */
  ghost predicate GroupOk(reservation: Reservation, g: Group) {
    g.members != [] && Distinct(g.members) &&
    forall k :: 0 <= k < |g.members| ==> g.members[k].reservation == Some(reservation)
  }

  /** An unblocked group resolved in s0 and applied after strangers were written is settled. */
  lemma ApplySettlesGroup(now: int, s0: Store, s: Store, reservation: Reservation, g: Group, visible: Option<nat>,
                          p: Raw -> bool)
    requires Core(s0) && Valid(s) && GrowsBy(s0, s, p) && GroupOk(reservation, g)
    requires forall r, q :: p(r) && q in g.members ==> !Collide(r, q)
    requires !ResolveGroup(s0, reservation, g).Blocking() && visible == ResolveGroup(s0, reservation, g).visible
    ensures var s' := ApplyGroup(now, s0, s, reservation, g, visible).store;
            Valid(s') && Settled(s', reservation, g, visible.GetOr(|s.messages|))
  {
    var m := visible.GetOr(|s.messages|);
    OpenGroup(s0, reservation, g, m);
    LockKeepsCore(s, reservation);
    var l := LockConversation(s, reservation);
    if visible.Some? {
      GrowthKeepsShown(s0, s, reservation, m);
      FillAndFinish(s0, l.store, reservation, m, g.members, p);
    } else {
      var born := InsertMessage(l.store, GroupRow(now, reservation.tenant, l.conversation, g));
      InsertMessageKeepsCore(l.store, GroupRow(now, reservation.tenant, l.conversation, g));
      BornKeeps(l.store, born);
      FillAndFinish(s0, born, reservation, m, g.members, p);
    }
  }

  lemma BornKeeps(s: Store, born: Store)
    requires Valid(s) && Linked(born) && born.sources == s.sources && s.messages <= born.messages &&
             |born.messages| == |s.messages| + 1
    ensures ChannexOnBooking(born) && forall k :: 0 <= k < |born.messages| && k != |s.messages| ==> HasSource(born, k)
  {
    forall k | 0 <= k < |s.messages| ensures HasSource(born, k) {
      assert HasSource(s, k);
      SourcesPersist(s, born, k);
    }
  }

  lemma FillAndFinish(s0: Store, b: Store, reservation: Reservation, m: nat, members: seq<Raw>, p: Raw -> bool)
    requires Core(b) && ChannexOnBooking(b) && forall k :: 0 <= k < |b.messages| && k != m ==> HasSource(b, k)
    requires Linked(s0) && SourcesFrom(s0, b, p) && Shown(b, reservation, m) && members != []
    requires forall r, q :: p(r) && q in members ==> !Collide(r, q)
    requires Distinct(members) && Fillable(s0, reservation, members, m)
    ensures var s' := ReconcileChannel(FillMembers(s0, b, reservation.tenant, m, members).store, m);
            Valid(s') && Shown(s', reservation, m) && AllOn(s', reservation.tenant, members, m)
  {
    FillSettles(s0, b, reservation, m, members, p);
    FillGrows(s0, b, reservation.tenant, m, members, (r: Raw) => true);
    var f := FillMembers(s0, b, reservation.tenant, m, members).store;
    GrowthKeepsShown(b, f, reservation, m);
    FinishGroup(b, f, reservation, m, members);
  }

  // ---------------------------------------------------------------- one reservation applied

  /** What the groups of one reservation are: non-empty, of its own rows, which never collide. */
  ghost predicate WorkOk(w: Work) {
    (forall k :: 0 <= k < |w.groups| ==> GroupOk(w.reservation, w.groups[k])) &&
    forall a, b, r, q :: 0 <= a < b < |w.groups| && r in w.groups[a].members && q in w.groups[b].members ==>
      !Collide(r, q)
  }

  /** The same for the open groups, with their resolutions in s0, which reach different messages. */
  ghost predicate TodosOk(s0: Store, reservation: Reservation, todos: seq<Todo>) {
    Core(s0) && Fit(s0, todos) &&
    (forall k :: 0 <= k < |todos| ==> GroupOk(reservation, todos[k].group) && IsOpen(s0, reservation, todos[k])) &&
    (forall a, b, r, q :: 0 <= a < b < |todos| && r in todos[a].group.members && q in todos[b].group.members ==>
       !Collide(r, q)) &&
    (forall a, b :: 0 <= a < b < |todos| && todos[a].resolution.visible.Some? ==>
       todos[a].resolution.visible != todos[b].resolution.visible)
  }

  lemma VisibleIsReached(s: Store, reservation: Reservation, g: Group)
    requires Linked(s)
    ensures var r := ResolveGroup(s, reservation, g); r.visible.Some? ==> r.visible.value in r.messageIds
  {
  }

  lemma OpenGroupsReachApart(rs: seq<Resolution>, a: nat, b: nat, m: nat)
    requires a < b < |rs| && !Blocked(rs, a) && m in rs[a].messageIds
    ensures m !in rs[b].messageIds
  {
    var j :| 0 <= j < |rs[a].messageIds| && rs[a].messageIds[j] == m;
    assert !IsCross(rs, rs[a].messageIds[j]);
    assert Reaches(rs, a, m);
    assert !Reaches(rs, b, m);
  }

  lemma UnblockedAreOk(s: Store, w: Work)
    requires Core(s) && WorkOk(w)
    ensures TodosOk(s, w.reservation, Unblocked(w, Resolutions(s, w), |w.groups|))
  {
    var rs := Resolutions(s, w);
    var todos := Unblocked(w, rs, |rs|);
    var ix := OpenIndexes(rs, |rs|);
    UnblockedAreOpen(s, w);
    forall a, b | 0 <= a < b < |todos| && todos[a].resolution.visible.Some?
      ensures todos[a].resolution.visible != todos[b].resolution.visible
    {
      VisibleIsReached(s, w.reservation, w.groups[ix[a]]);
      VisibleIsReached(s, w.reservation, w.groups[ix[b]]);
      OpenGroupsReachApart(rs, ix[a], ix[b], todos[a].resolution.visible.value);
    }
  }

  /** Where the handled todos now live: one message each, new ones beyond the old table. */
  ghost predicate HomeIds(base: nat, bound: nat, todos: seq<Todo>, homes: seq<nat>) {
    |homes| == |todos| &&
    (forall k :: 0 <= k < |homes| ==>
       homes[k] < bound &&
       if todos[k].resolution.visible.Some? then homes[k] == todos[k].resolution.visible.value else base <= homes[k]) &&
    (forall j, k :: 0 <= j < k < |homes| ==> homes[j] != homes[k])
  }

  ghost predicate HomesOk(s0: Store, s: Store, reservation: Reservation, todos: seq<Todo>, homes: seq<nat>) {
    HomeIds(|s0.messages|, |s.messages|, todos, homes) &&
    (forall k :: 0 <= k < |homes| ==> Settled(s, reservation, todos[k].group, homes[k]))
  }

  ghost predicate InTodos(todos: seq<Todo>, r: Raw) {
    exists k :: 0 <= k < |todos| && r in todos[k].group.members
  }

  lemma TodosFront(s0: Store, reservation: Reservation, todos: seq<Todo>, n: nat)
    requires TodosOk(s0, reservation, todos) && n <= |todos|
    ensures TodosOk(s0, reservation, todos[..n])
  {
  }

  lemma TodosApart(s0: Store, reservation: Reservation, todos: seq<Todo>, n: nat)
    requires TodosOk(s0, reservation, todos) && n < |todos|
    ensures forall r, q :: InTodos(todos[..n], r) && q in todos[n].group.members ==> !Collide(r, q)
  {
    forall r, q | InTodos(todos[..n], r) && q in todos[n].group.members ensures !Collide(r, q) {
      var a :| 0 <= a < n && r in todos[..n][a].group.members;
      assert r in todos[a].group.members;
    }
  }

  lemma TodosAreStrangers(s0: Store, reservation: Reservation, todos: seq<Todo>, n: nat)
    requires TodosOk(s0, reservation, todos) && n < |todos|
    ensures TodosOk(s0, reservation, todos[..n])
    ensures forall r, q :: InTodos(todos[..n], r) && q in todos[n].group.members ==> !Collide(r, q)
    ensures AllowsTodos((r: Raw) => InTodos(todos[..n], r), todos[..n])
  {
    TodosFront(s0, reservation, todos, n);
    TodosApart(s0, reservation, todos, n);
  }

  /** Applying the open groups one after the other keeps the store valid and settles each of them. */
  lemma {:induction false} ApplySettlesAll(now: int, s0: Store, reservation: Reservation, todos: seq<Todo>,
                                           report: Report) returns (homes: seq<nat>)
    requires Valid(s0) && TodosOk(s0, reservation, todos)
    ensures var s := HandleAll(Apply, now, s0, reservation, todos, report).store;
            Valid(s) && HomesOk(s0, s, reservation, todos, homes)
  {
    if todos == [] {
      homes := [];
    } else {
      var n := |todos| - 1;
      var front, todo := todos[..n], todos[n];
      TodosAreStrangers(s0, reservation, todos, n);
      var before := ApplySettlesAll(now, s0, reservation, front, report);
      HandleAllGrows(Apply, now, s0, reservation, front, report, (r: Raw) => InTodos(front, r));
      var s := HandleAll(Apply, now, s0, reservation, front, report).store;
      homes := ApplySettlesNext(now, s0, s, reservation, todos, before);
    }
  }

  lemma ApplySettlesNext(now: int, s0: Store, s: Store, reservation: Reservation, todos: seq<Todo>, before: seq<nat>)
    returns (homes: seq<nat>)
    requires todos != [] && TodosOk(s0, reservation, todos) && Valid(s)
    requires HomesOk(s0, s, reservation, todos[..|todos| - 1], before)
    requires GrowsBy(s0, s, (r: Raw) => InTodos(todos[..|todos| - 1], r))
    ensures var todo := todos[|todos| - 1];
            var s' := ApplyGroup(now, s0, s, reservation, todo.group, todo.resolution.visible).store;
            Valid(s') && HomesOk(s0, s', reservation, todos, homes)
  {
    var s', home := ApplyLast(now, s0, s, reservation, todos);
    FrontSettledAfter(s0, s, s', reservation, todos, before);
    TodosVisibleApart(s0, reservation, todos);
    homes := HomesExtend(s0, s, s', reservation, todos, before, home);
  }

  lemma FrontSettledAfter(s0: Store, s: Store, s': Store, reservation: Reservation, todos: seq<Todo>, before: seq<nat>)
    requires todos != [] && TodosOk(s0, reservation, todos)
    requires GrowsBy(s, s', (r: Raw) => r in todos[|todos| - 1].group.members)
    requires |before| == |todos| - 1
    requires forall k :: 0 <= k < |before| ==> Settled(s, reservation, todos[..|todos| - 1][k].group, before[k])
    ensures forall k :: 0 <= k < |before| && k < |todos| - 1 ==> Settled(s', reservation, todos[k].group, before[k])
  {
    var n := |todos| - 1;
    TodosApart(s0, reservation, todos, n);
    FrontStaysSettled(s, s', reservation, todos[..n], todos[n].group, before);
    assert forall k :: 0 <= k < n ==> todos[..n][k] == todos[k];
  }

  /** The last todo's message is in the old table and is nobody else's. */
  ghost predicate LastIsApart(base: nat, todos: seq<Todo>) {
    todos != [] &&
    var visible := todos[|todos| - 1].resolution.visible;
    (visible.Some? ==> visible.value < base) &&
    (visible.Some? ==> forall k :: 0 <= k < |todos| - 1 ==> todos[k].resolution.visible != visible)
  }

  lemma TodosVisibleApart(s0: Store, reservation: Reservation, todos: seq<Todo>)
    requires todos != [] && TodosOk(s0, reservation, todos)
    ensures LastIsApart(|s0.messages|, todos)
  {
    var n := |todos| - 1;
    forall k | 0 <= k < n && todos[n].resolution.visible.Some?
      ensures todos[k].resolution.visible != todos[n].resolution.visible
    {
      if todos[k].resolution.visible.Some? { assert todos[k].resolution.visible != todos[n].resolution.visible; }
    }
  }

  lemma HomesExtend(s0: Store, s: Store, s': Store, reservation: Reservation, todos: seq<Todo>, before: seq<nat>,
                    home: nat)
    returns (homes: seq<nat>)
    requires LastIsApart(|s0.messages|, todos) && |s0.messages| <= |s.messages| <= |s'.messages|
    requires HomeIds(|s0.messages|, |s.messages|, todos[..|todos| - 1], before)
    requires home == todos[|todos| - 1].resolution.visible.GetOr(|s.messages|) && home < |s'.messages|
    requires Settled(s', reservation, todos[|todos| - 1].group, home)
    requires forall k :: 0 <= k < |before| && k < |todos| - 1 ==> Settled(s', reservation, todos[k].group, before[k])
    ensures HomesOk(s0, s', reservation, todos, homes)
  {
    homes := before + [home];
    HomeIdsExtend(|s0.messages|, |s.messages|, |s'.messages|, todos, before, home);
  }

  lemma ApplyLast(now: int, s0: Store, s: Store, reservation: Reservation, todos: seq<Todo>)
    returns (s': Store, home: nat)
    requires todos != [] && TodosOk(s0, reservation, todos) && Valid(s)
    requires GrowsBy(s0, s, (r: Raw) => InTodos(todos[..|todos| - 1], r))
    ensures var todo := todos[|todos| - 1];
            var visible := todo.resolution.visible;
            s' == ApplyGroup(now, s0, s, reservation, todo.group, visible).store &&
            home == visible.GetOr(|s.messages|) &&
            Valid(s') && Settled(s', reservation, todo.group, home) &&
            GrowsBy(s, s', (r: Raw) => r in todo.group.members) && home < |s'.messages|
  {
    var n := |todos| - 1;
    var todo := todos[n];
    TodosAreStrangers(s0, reservation, todos, n);
    var visible := todo.resolution.visible;
    ApplySettlesGroup(now, s0, s, reservation, todo.group, visible, (r: Raw) => InTodos(todos[..n], r));
    ApplyGrows(now, s0, s, reservation, todo.group, visible, (r: Raw) => r in todo.group.members);
    s', home := ApplyGroup(now, s0, s, reservation, todo.group, visible).store, visible.GetOr(|s.messages|);
  }

  lemma HomeIdsExtend(base: nat, bound: nat, bound': nat, todos: seq<Todo>, before: seq<nat>, home: nat)
    requires todos != [] && base <= bound <= bound' && home < bound'
    requires HomeIds(base, bound, todos[..|todos| - 1], before)
    requires var visible := todos[|todos| - 1].resolution.visible;
             home == visible.GetOr(bound) && (visible.Some? ==> visible.value < base) &&
             forall k :: 0 <= k < |before| && todos[k].resolution.visible.Some? ==>
               todos[k].resolution.visible != visible
    ensures HomeIds(base, bound', todos, before + [home])
  {
    var n := |todos| - 1;
    assert forall k :: 0 <= k < n ==> todos[..n][k] == todos[k];
  }

  lemma FrontStaysSettled(s: Store, s': Store, reservation: Reservation, front: seq<Todo>, g: Group, before: seq<nat>)
    requires |before| == |front| && GrowsBy(s, s', (r: Raw) => r in g.members)
    requires forall k :: 0 <= k < |front| ==> Settled(s, reservation, front[k].group, before[k])
    requires forall r, q :: InTodos(front, r) && q in g.members ==> !Collide(r, q)
    ensures forall k :: 0 <= k < |front| ==> Settled(s', reservation, front[k].group, before[k])
  {
    var own := (r: Raw) => r in g.members;
    forall k | 0 <= k < |front| ensures Settled(s', reservation, front[k].group, before[k]) {
      forall r, q | own(r) && q in front[k].group.members ensures !Collide(r, q) {
        assert InTodos(front, q);
        CollideSymmetric(r, q);
      }
      GrowthKeepsSettled(s, s', reservation, front[k].group, before[k], own);
    }
  }

  /** Whatever is blocked, an apply step keeps the store valid and settles every open group. */
  lemma ApplySettlesOpen(now: int, s: Store, w: Work, report: Report) returns (homes: seq<nat>)
    requires Valid(s) && WorkOk(w)
    ensures var s' := ProcessReservation(Apply, now, s, w, report).store;
            Valid(s') && HomesOk(s, s', w.reservation, Unblocked(w, Resolutions(s, w), |w.groups|), homes)
  {
    UnblockedAreOk(s, w);
    var rs := Resolutions(s, w);
    homes := ApplySettlesAll(now, s, w.reservation, Unblocked(w, rs, |rs|), AfterPhaseOne(w, rs, |s.messages|, report));
  }

  // ---------------------------------------------------------------- an apply step puts to rest

  /** How group k resolved before the step, and how it resolves after it: a blocked one as before, an open
      one to a message of its own, which is the visible one or lies beyond the old table. */
  ghost predicate RestsAt(rs: seq<Resolution>, rs': seq<Resolution>, base: nat, k: nat)
    requires k < |rs| == |rs'|
  {
    if Blocked(rs, k) then rs'[k] == rs[k] && forall m :: m in rs[k].messageIds ==> m < base
    else
      rs'[k].visible.Some? && rs'[k] == Resolution([rs'[k].visible.value], [], rs'[k].visible, []) &&
      (if rs[k].visible.Some? then rs'[k].visible == rs[k].visible && rs[k].visible.value in rs[k].messageIds
       else base <= rs'[k].visible.value)
  }

  ghost predicate Rests(rs: seq<Resolution>, rs': seq<Resolution>, base: nat) {
    |rs| == |rs'| && (forall k :: 0 <= k < |rs| ==> RestsAt(rs, rs', base, k)) &&
    (forall a, b :: 0 <= a < b < |rs| && !Blocked(rs, a) && !Blocked(rs, b) ==> rs'[a].visible != rs'[b].visible)
  }

  lemma CrossBlocks(rs: seq<Resolution>, a: nat, b: nat, m: nat)
    requires a < |rs| && b < |rs| && a != b && Reaches(rs, a, m) && Reaches(rs, b, m)
    ensures Blocked(rs, a) && IsCross(rs, m)
  {
    assert a < b || b < a;
    var j :| 0 <= j < |rs[a].messageIds| && rs[a].messageIds[j] == m;
    assert IsCross(rs, rs[a].messageIds[j]);
  }

  /** Nobody else reaches the message of an open group. */
  lemma OpenReachesAlone(rs: seq<Resolution>, rs': seq<Resolution>, base: nat, a: nat, b: nat, m: nat)
    requires Rests(rs, rs', base) && a < |rs| && b < |rs| && a != b && !Blocked(rs, a) && Reaches(rs', a, m)
    ensures !Reaches(rs', b, m)
  {
    assert RestsAt(rs, rs', base, a) && RestsAt(rs, rs', base, b);
    assert rs'[a].visible == Some(m);
    if Reaches(rs', b, m) {
      if Blocked(rs, b) {
        assert Reaches(rs, b, m) && Reaches(rs, a, m);
        CrossBlocks(rs, a, b, m);
      }
    }
  }

  lemma SameCross(rs: seq<Resolution>, rs': seq<Resolution>, base: nat, m: nat)
    requires Rests(rs, rs', base)
    ensures IsCross(rs', m) <==> IsCross(rs, m)
  {
    if IsCross(rs', m) {
      var a, b :| 0 <= a < b < |rs'| && Reaches(rs', a, m) && Reaches(rs', b, m);
      if !Blocked(rs, a) { OpenReachesAlone(rs, rs', base, a, b, m); }
      if !Blocked(rs, b) { OpenReachesAlone(rs, rs', base, b, a, m); }
      assert RestsAt(rs, rs', base, a) && RestsAt(rs, rs', base, b);
      CrossBlocks(rs, a, b, m);
    }
    if IsCross(rs, m) {
      var a, b :| 0 <= a < b < |rs| && Reaches(rs, a, m) && Reaches(rs, b, m);
      CrossBlocks(rs, a, b, m);
      CrossBlocks(rs, b, a, m);
      assert RestsAt(rs, rs', base, a) && RestsAt(rs, rs', base, b);
      assert Reaches(rs', a, m) && Reaches(rs', b, m);
    }
  }

  /** The same groups are blocked afterwards. */
  lemma SameBlocked(rs: seq<Resolution>, rs': seq<Resolution>, base: nat, k: nat)
    requires Rests(rs, rs', base) && k < |rs|
    ensures Blocked(rs', k) <==> Blocked(rs, k)
  {
    assert RestsAt(rs, rs', base, k);
    var ids := rs'[k].messageIds;
    forall j | 0 <= j < |ids| ensures IsCross(rs', ids[j]) <==> IsCross(rs, ids[j]) {
      SameCross(rs, rs', base, ids[j]);
    }
    if !Blocked(rs, k) && IsCross(rs', ids[0]) {
      var a, b :| 0 <= a < b < |rs'| && Reaches(rs', a, ids[0]) && Reaches(rs', b, ids[0]);
      OpenReachesAlone(rs, rs', base, k, if a == k then b else a, ids[0]);
    }
  }

  lemma {:induction false} SameResolveAnomalies(w: Work, rs: seq<Resolution>, rs': seq<Resolution>, n: nat)
    requires n <= |rs| == |rs'| == |w.groups| && forall k :: 0 <= k < |rs| ==> rs'[k].anomalies == rs[k].anomalies
    ensures ResolveAnomalies(w, rs', n) == ResolveAnomalies(w, rs, n)
  {
    if n > 0 { SameResolveAnomalies(w, rs, rs', n - 1); }
  }

  lemma {:induction false} SameCrossAnomalies(reservation: Reservation, rs: seq<Resolution>, rs': seq<Resolution>,
                                              base: nat, n: nat)
    requires Rests(rs, rs', base)
    ensures CrossAnomalies(reservation, rs', n) == CrossAnomalies(reservation, rs, n)
  {
    if n > 0 {
      SameCrossAnomalies(reservation, rs, rs', base, n - 1);
      SameCross(rs, rs', base, n - 1);
    }
  }

  lemma {:induction false} ApplyReportsNothing(now: int, s0: Store, reservation: Reservation, todos: seq<Todo>,
                                               report: Report)
    requires Fit(s0, todos)
    ensures HandleAll(Apply, now, s0, reservation, todos, report).report.blocking == report.blocking
  {
    if todos != [] { ApplyReportsNothing(now, s0, reservation, todos[..|todos| - 1], report); }
  }

  ghost predicate Written(s: Store, s': Store, todos: seq<Todo>) {
    GrowsBy(s, s', (r: Raw) => InTodos(todos, r))
  }

  /** No row of an open group collides with one of a blocked group. */
  lemma OpenRowsAreApart(w: Work, rs: seq<Resolution>, k: nat, r: Raw, q: Raw)
    requires WorkOk(w) && k < |rs| == |w.groups| && Blocked(rs, k)
    requires InTodos(Unblocked(w, rs, |rs|), r) && q in w.groups[k].members
    ensures !Collide(r, q)
  {
    var todos, ix := Unblocked(w, rs, |rs|), OpenIndexes(rs, |rs|);
    var i :| 0 <= i < |todos| && r in todos[i].group.members;
    assert todos[i] == Todo(ix[i], w.groups[ix[i]], rs[ix[i]]);
    CollideSymmetric(r, q);
    if ix[i] < k { assert !Collide(r, q); } else { assert !Collide(q, r); }
  }

  /** A blocked group resolves after the step as it did before: what was written collides with none of it. */
  lemma BlockedStays(s: Store, s': Store, w: Work, rs: seq<Resolution>, k: nat)
    requires Linked(s) && WorkOk(w) && rs == Resolutions(s, w) && k < |rs| && Blocked(rs, k)
    requires Written(s, s', Unblocked(w, rs, |rs|))
    ensures Resolutions(s', w)[k] == rs[k]
    ensures forall m :: m in rs[k].messageIds ==> m < |s.messages|
  {
    var p := (r: Raw) => InTodos(Unblocked(w, rs, |rs|), r);
    forall r, q | p(r) && q in w.groups[k].members ensures !Collide(r, q) { OpenRowsAreApart(w, rs, k, r, q); }
    ResolveStable(s, s', w.reservation, w.groups[k], p);
  }

  /** An open group resolves after the step to its home. */
  lemma OpenComesHome(s: Store, s': Store, w: Work, homes: seq<nat>, i: nat)
    requires Linked(s) && Linked(s') && WorkOk(w)
    requires HomesOk(s, s', w.reservation, Unblocked(w, Resolutions(s, w), |w.groups|), homes) && i < |homes|
    ensures var k := OpenIndexes(Resolutions(s, w), |w.groups|)[i];
            Resolutions(s', w)[k] == Resolution([homes[i]], [], Some(homes[i]), []) &&
            RestsAt(Resolutions(s, w), Resolutions(s', w), |s.messages|, k)
  {
    var rs := Resolutions(s, w);
    var k := OpenIndexes(rs, |rs|)[i];
    assert Unblocked(w, rs, |rs|)[i] == Todo(k, w.groups[k], rs[k]);
    SettledResolves(s', w.reservation, w.groups[k], homes[i]);
    VisibleIsReached(s, w.reservation, w.groups[k]);
  }

  /** The open group k has its home at index i. */
  lemma HomeOfOpen(rs: seq<Resolution>, k: nat) returns (i: nat)
    requires k < |rs| && !Blocked(rs, k)
    ensures i < |OpenIndexes(rs, |rs|)| && OpenIndexes(rs, |rs|)[i] == k
  {
    i :| 0 <= i < |OpenIndexes(rs, |rs|)| && OpenIndexes(rs, |rs|)[i] == k;
  }

  lemma GroupRests(s: Store, s': Store, w: Work, homes: seq<nat>, k: nat)
    requires Linked(s) && Linked(s') && WorkOk(w) && k < |w.groups|
    requires HomesOk(s, s', w.reservation, Unblocked(w, Resolutions(s, w), |w.groups|), homes)
    requires Written(s, s', Unblocked(w, Resolutions(s, w), |w.groups|))
    ensures RestsAt(Resolutions(s, w), Resolutions(s', w), |s.messages|, k)
  {
    var rs := Resolutions(s, w);
    if Blocked(rs, k) {
      BlockedStays(s, s', w, rs, k);
    } else {
      var i := HomeOfOpen(rs, k);
      OpenComesHome(s, s', w, homes, i);
    }
  }

  /** The home that the open group k resolves to after the step. */
  lemma HomeAfter(s: Store, s': Store, w: Work, homes: seq<nat>, k: nat) returns (i: nat)
    requires Linked(s) && Linked(s') && WorkOk(w) && k < |w.groups| && !Blocked(Resolutions(s, w), k)
    requires HomesOk(s, s', w.reservation, Unblocked(w, Resolutions(s, w), |w.groups|), homes)
    ensures i < |homes| == |OpenIndexes(Resolutions(s, w), |w.groups|)| &&
            OpenIndexes(Resolutions(s, w), |w.groups|)[i] == k
    ensures Resolutions(s', w)[k].visible == Some(homes[i])
  {
    i := HomeOfOpen(Resolutions(s, w), k);
    OpenComesHome(s, s', w, homes, i);
  }

  ghost predicate AllDifferent(homes: seq<nat>) {
    forall i, j :: 0 <= i < j < |homes| ==> homes[i] != homes[j]
  }

  lemma HomesApart(s: Store, s': Store, w: Work, homes: seq<nat>, a: nat, b: nat)
    requires Linked(s) && Linked(s') && WorkOk(w) && a < b < |w.groups|
    requires HomesOk(s, s', w.reservation, Unblocked(w, Resolutions(s, w), |w.groups|), homes) && AllDifferent(homes)
    requires !Blocked(Resolutions(s, w), a) && !Blocked(Resolutions(s, w), b)
    ensures Resolutions(s', w)[a].visible != Resolutions(s', w)[b].visible
  {
    var i := HomeAfter(s, s', w, homes, a);
    var j := HomeAfter(s, s', w, homes, b);
    assert i != j;
    assert homes[i] != homes[j];
  }

  lemma HomesRest(s: Store, s': Store, w: Work, homes: seq<nat>)
    requires Linked(s) && Linked(s') && WorkOk(w)
    requires HomesOk(s, s', w.reservation, Unblocked(w, Resolutions(s, w), |w.groups|), homes)
    requires Written(s, s', Unblocked(w, Resolutions(s, w), |w.groups|))
    ensures Rests(Resolutions(s, w), Resolutions(s', w), |s.messages|)
  {
    var rs, rs' := Resolutions(s, w), Resolutions(s', w);
    forall k | 0 <= k < |rs| ensures RestsAt(rs, rs', |s.messages|, k) { GroupRests(s, s', w, homes, k); }
    forall a, b | 0 <= a < b < |rs| && !Blocked(rs, a) && !Blocked(rs, b) ensures rs'[a].visible != rs'[b].visible {
      HomesApart(s, s', w, homes, a, b);
    }
  }

  /** A step after which the groups rest finds afterwards what it found before. */
  lemma RestFindsTheSame(s: Store, s': Store, w: Work)
    requires Linked(s) && Linked(s') && |s.messages| <= |s'.messages|
    requires Rests(Resolutions(s, w), Resolutions(s', w), |s.messages|)
    ensures Findings(s', w) == Findings(s, w)
  {
    var rs, rs' := Resolutions(s, w), Resolutions(s', w);
    CrossesInTable(s, w, |s'.messages|);
    SameCrossAnomalies(w.reservation, rs, rs', |s.messages|, |s'.messages|);
    forall k | 0 <= k < |rs| ensures rs'[k].anomalies == rs[k].anomalies { assert RestsAt(rs, rs', |s.messages|, k); }
    SameResolveAnomalies(w, rs, rs', |rs|);
  }

  lemma HomeIsCalm(s: Store, s': Store, w: Work, homes: seq<nat>, k: nat)
    requires Linked(s) && Linked(s') && WorkOk(w) && k < |w.groups| && !Blocked(Resolutions(s, w), k)
    requires HomesOk(s, s', w.reservation, Unblocked(w, Resolutions(s, w), |w.groups|), homes)
    ensures Calm(s', w.reservation, Todo(k, w.groups[k], Resolutions(s', w)[k]))
  {
    var rs := Resolutions(s, w);
    var i := HomeOfOpen(rs, k);
    OpenComesHome(s, s', w, homes, i);
    assert Unblocked(w, rs, |rs|)[i] == Todo(k, w.groups[k], rs[k]);
  }

  lemma HomesAreCalm(s: Store, s': Store, w: Work, homes: seq<nat>)
    requires Linked(s) && Linked(s') && WorkOk(w)
    requires HomesOk(s, s', w.reservation, Unblocked(w, Resolutions(s, w), |w.groups|), homes)
    requires Rests(Resolutions(s, w), Resolutions(s', w), |s.messages|)
    ensures AtRest(s', w)
  {
    var rs, rs' := Resolutions(s, w), Resolutions(s', w);
    forall k | 0 <= k < |rs| ensures CalmAt(s', w, rs', k) {
      SameBlocked(rs, rs', |s.messages|, k);
      if !Blocked(rs, k) { HomeIsCalm(s, s', w, homes, k); }
    }
  }

  /** Where an apply step leads, and what it reports. */
  lemma ApplyStep(now: int, s: Store, w: Work, report: Report) returns (s': Store, homes: seq<nat>)
    requires Valid(s) && WorkOk(w)
    ensures var p := ProcessReservation(Apply, now, s, w, report);
            s' == p.store && p.report.blocking == report.blocking + Findings(s, w)
    ensures Valid(s') && Written(s, s', Unblocked(w, Resolutions(s, w), |w.groups|))
    ensures HomesOk(s, s', w.reservation, Unblocked(w, Resolutions(s, w), |w.groups|), homes)
  {
    var rs := Resolutions(s, w);
    var todos, start := Unblocked(w, rs, |rs|), AfterPhaseOne(w, rs, |s.messages|, report);
    homes := ApplySettlesOpen(now, s, w, report);
    HandleAllGrows(Apply, now, s, w.reservation, todos, start, (r: Raw) => InTodos(todos, r));
    ApplyReportsNothing(now, s, w.reservation, todos, start);
    PhaseOneFinds(s, w, report);
    s' := ProcessReservation(Apply, now, s, w, report).store;
  }

  /** Whatever it finds, an apply step keeps the store valid and puts the reservation to rest: the blocked
      groups are blocked as before, all others are settled. It reports just what is found. */
  lemma ApplyRests(now: int, s: Store, w: Work, report: Report)
    requires Valid(s) && WorkOk(w)
    ensures var p := ProcessReservation(Apply, now, s, w, report);
            Valid(p.store) && AtRest(p.store, w) && Findings(p.store, w) == Findings(s, w) &&
            p.report.blocking == report.blocking + Findings(s, w)
  {
    var s', homes := ApplyStep(now, s, w, report);
    HomesRest(s, s', w, homes);
    RestFindsTheSame(s, s', w);
    HomesAreCalm(s, s', w, homes);
  }

  // ---------------------------------------------------------------- the whole scan

  ghost predicate AllAtRest(s: Store, works: seq<Work>) {
    forall a :: 0 <= a < |works| ==> AtRest(s, works[a])
  }

  function AllFindings(s: Store, works: seq<Work>): seq<Anomaly>
    requires Linked(s)
  {
    if works == [] then [] else AllFindings(s, works[..|works| - 1]) + Findings(s, works[|works| - 1])
  }

  /** No allowed row collides with a row of the works. */
  ghost predicate Strangers(p: Raw -> bool, works: seq<Work>) {
    forall r, q :: p(r) && InWorks(works, q) ==> !Collide(r, q)
  }

  lemma StrangersOfParts(p: Raw -> bool, works: seq<Work>)
    requires works != [] && Strangers(p, works)
    ensures Strangers(p, works[..|works| - 1])
    ensures forall r, q :: p(r) && MemberOf(works[|works| - 1], q) ==> !Collide(r, q)
  {
    var n := |works| - 1;
    forall r, q | p(r) && InWorks(works[..n], q) ensures !Collide(r, q) {
      var a :| 0 <= a < n && MemberOf(works[..n][a], q);
      assert MemberOf(works[a], q);
      assert InWorks(works, q);
    }
    forall r, q | p(r) && MemberOf(works[n], q) ensures !Collide(r, q) { assert InWorks(works, q); }
  }

  lemma AllAtRestParts(s: Store, works: seq<Work>)
    requires works != []
    ensures AllAtRest(s, works) <==> AllAtRest(s, works[..|works| - 1]) && AtRest(s, works[|works| - 1])
  {
    var n := |works| - 1;
    if AllAtRest(s, works[..n]) && AtRest(s, works[n]) {
      forall a | 0 <= a < |works| ensures AtRest(s, works[a]) { if a < n { assert AtRest(s, works[..n][a]); } }
    }
  }

  lemma {:induction false} GrowthKeepsAllAtRest(s: Store, s': Store, works: seq<Work>, p: Raw -> bool)
    requires Linked(s) && AllAtRest(s, works) && GrowsBy(s, s', p) && Strangers(p, works)
    ensures AllAtRest(s', works) && AllFindings(s', works) == AllFindings(s, works)
  {
    if works != [] {
      var n := |works| - 1;
      StrangersOfParts(p, works);
      AllAtRestParts(s, works);
      GrowthKeepsAllAtRest(s, s', works[..n], p);
      GrowthKeepsRest(s, s', works[n], p);
      AllAtRestParts(s', works);
    }
  }

  /** An apply scan keeps the store valid, puts every reservation to rest and reports what is then found. */
  lemma {:induction false} ApplyScanRests(now: int, s: Store, works: seq<Work>)
    requires Valid(s) && Apart(works) && forall a :: 0 <= a < |works| ==> WorkOk(works[a])
    ensures var p := Scan(Apply, now, s, works);
            Valid(p.store) && AllAtRest(p.store, works) && p.report.blocking == AllFindings(p.store, works)
  {
    if works != [] {
      var n := |works| - 1;
      ApplyScanRests(now, s, works[..n]);
      NextRests(now, Scan(Apply, now, s, works[..n]), works);
    }
  }

  lemma LastIsStranger(works: seq<Work>)
    requires works != [] && Apart(works)
    ensures Strangers((r: Raw) => MemberOf(works[|works| - 1], r), works[..|works| - 1])
  {
    var n := |works| - 1;
    forall r, q | MemberOf(works[n], r) && InWorks(works[..n], q) ensures !Collide(r, q) {
      var a :| 0 <= a < n && MemberOf(works[..n][a], q);
      assert MemberOf(works[a], q);
      CollideSymmetric(r, q);
    }
  }

  /** Where the last step of a scan leads. */
  lemma LastStep(now: int, before: Progress, works: seq<Work>) returns (p: Progress)
    requires works != [] && WorkOk(works[|works| - 1]) && Valid(before.store)
    ensures p == ProcessReservation(Apply, now, before.store, works[|works| - 1], before.report)
    ensures Valid(p.store) && AtRest(p.store, works[|works| - 1])
    ensures p.report.blocking == before.report.blocking + Findings(p.store, works[|works| - 1])
    ensures GrowsBy(before.store, p.store, (r: Raw) => MemberOf(works[|works| - 1], r))
  {
    var w := works[|works| - 1];
    ApplyRests(now, before.store, w, before.report);
    AllowsMembers(w, (r: Raw) => MemberOf(w, r));
    ProcessGrows(Apply, now, before.store, w, before.report, (r: Raw) => MemberOf(w, r));
    p := ProcessReservation(Apply, now, before.store, w, before.report);
  }

  lemma NextRests(now: int, before: Progress, works: seq<Work>)
    requires works != [] && Apart(works) && WorkOk(works[|works| - 1]) && Valid(before.store)
    requires AllAtRest(before.store, works[..|works| - 1])
    requires before.report.blocking == AllFindings(before.store, works[..|works| - 1])
    ensures var p := ProcessReservation(Apply, now, before.store, works[|works| - 1], before.report);
            Valid(p.store) && AllAtRest(p.store, works) && p.report.blocking == AllFindings(p.store, works)
  {
    var p := LastStep(now, before, works);
    LastIsStranger(works);
    JoinRest(before.store, p.store, works, (r: Raw) => MemberOf(works[|works| - 1], r));
  }

  lemma JoinRest(s: Store, s': Store, works: seq<Work>, p: Raw -> bool)
    requires works != [] && Linked(s) && AllAtRest(s, works[..|works| - 1]) && AtRest(s', works[|works| - 1])
    requires GrowsBy(s, s', p) && Strangers(p, works[..|works| - 1])
    ensures AllAtRest(s', works)
    ensures AllFindings(s', works) == AllFindings(s, works[..|works| - 1]) + Findings(s', works[|works| - 1])
  {
    GrowthKeepsAllAtRest(s, s', works[..|works| - 1], p);
    AllAtRestParts(s', works);
  }

  /** Scanning reservations at rest, in any mode, writes nothing and finds what is there to be found. */
  lemma {:induction false} RestingScan(mode: Mode, now: int, s: Store, works: seq<Work>)
    requires Linked(s) && ChannexOnBooking(s) && AllAtRest(s, works)
    ensures var p := Scan(mode, now, s, works);
            p.store == s && OnlyFinds(NEW_REPORT, p.report, AllFindings(s, works))
  {
    if works != [] {
      var n := |works| - 1;
      AllAtRestParts(s, works);
      RestingScan(mode, now, s, works[..n]);
      var before := Scan(mode, now, s, works[..n]).report;
      RestingProcess(mode, now, s, works[n], before);
      FindsOneAfterTheOther(NEW_REPORT, before, Scan(mode, now, s, works).report,
                            AllFindings(s, works[..n]), Findings(s, works[n]));
    }
  }

  lemma FindsOneAfterTheOther(a: Report, b: Report, c: Report, first: seq<Anomaly>, second: seq<Anomaly>)
    requires OnlyFinds(a, b, first) && OnlyFinds(b, c, second)
    ensures OnlyFinds(a, c, first + second)
  {
    assert a.blocking + first + second == a.blocking + (first + second);
  }

  /** Convergence: whatever an apply scan found, any later scan of the same groups, in any mode, changes no
      row, creates, heals and announces nothing, and reports the same blocking list. In particular a
      validation reports nothing exactly when the apply scan reported nothing. */
  lemma BackfillConverges(now: int, later: int, mode: Mode, s: Store, works: seq<Work>)
    requires Valid(s) && Apart(works) && forall a :: 0 <= a < |works| ==> WorkOk(works[a])
    ensures var first := Scan(Apply, now, s, works);
            Valid(first.store) &&
            var again := Scan(mode, later, first.store, works);
            again.store == first.store && again.report.blocking == first.report.blocking &&
            again.report.createdMessages == again.report.createdSources == again.report.healedSources == 0 &&
            again.report.wouldCreateMessages == again.report.wouldCreateSources == 0
  {
    ApplyScanRests(now, s, works);
    RestingScan(mode, later, Scan(Apply, now, s, works).store, works);
  }
}
