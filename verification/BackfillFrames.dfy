/** What a backfill step can and cannot touch. */
module BackfillFrames {
  import opened Wrappers
  import opened CanonicalModel
  import opened CanonicalStore
  import opened CanonicalStoreLaws
  import opened CanonicalBackfill

  /** Every source added from s to s' is a faithful one of a raw row that p allows. */
  ghost predicate SourcesFrom(s: Store, s': Store, p: Raw -> bool) {
    s.sources <= s'.sources &&
    forall i :: |s.sources| <= i < |s'.sources| ==>
      var x := s'.sources[i]; p(x.raw) && x.provider == ProviderOf(x.raw) && x.providerId == CanonicalId(x.raw)
  }

  /** The store grew by sources of raw rows that p allows, and by message and conversation rows. */
  ghost predicate GrowsBy(s: Store, s': Store, p: Raw -> bool) {
    Linked(s') && Grows(s, s') && SourcesFrom(s, s', p)
  }

  lemma EvolvesTrans(a: Message, b: Message, c: Message)
    requires Evolves(a, b) && Evolves(b, c)
    ensures Evolves(a, c)
  {
  }

  lemma GrowsTrans(a: Store, b: Store, c: Store)
    requires Grows(a, b) && Grows(b, c)
    ensures Grows(a, c)
  {
    forall m | 0 <= m < |a.messages| ensures Evolves(a.messages[m], c.messages[m]) {
      EvolvesTrans(a.messages[m], b.messages[m], c.messages[m]);
    }
  }

  lemma SourcesFromTrans(a: Store, b: Store, c: Store, p: Raw -> bool)
    requires SourcesFrom(a, b, p) && SourcesFrom(b, c, p)
    ensures SourcesFrom(a, c, p)
  {
    assert forall i :: |a.sources| <= i < |b.sources| ==> c.sources[i] == b.sources[i];
  }

  lemma GrowsByTrans(a: Store, b: Store, c: Store, p: Raw -> bool)
    requires GrowsBy(a, b, p) && GrowsBy(b, c, p)
    ensures GrowsBy(a, c, p)
  {
    GrowsTrans(a, b, c);
    SourcesFromTrans(a, b, c, p);
  }

  lemma GrowsByRefl(s: Store, p: Raw -> bool)
    requires Linked(s)
    ensures GrowsBy(s, s, p)
  {
  }

  // ---------------------------------------------------------------- lookups do not see strangers

  lemma FindByKeyStable(s: Store, s': Store, key: RawKey)
    requires s.sources <= s'.sources
    requires forall i :: |s.sources| <= i < |s'.sources| ==> s'.sources[i].raw.key != key
    ensures FindByKey(s', key) == FindByKey(s, key)
  {
    assert forall i :: 0 <= i < |s.sources| ==> s'.sources[i] == s.sources[i];
    var a, b := FindByKey(s, key), FindByKey(s', key);
    assert a.Some? ==> b.Some? && b.value <= a.value;
    assert b.Some? ==> b.value < |s.sources|;
  }

  lemma FindByIdStable(s: Store, s': Store, tenant: nat, provider: Provider, id: Option<string>)
    requires s.sources <= s'.sources
    requires forall i :: |s.sources| <= i < |s'.sources| ==> !HasId(s'.sources[i], tenant, provider, id)
    ensures FindById(s', tenant, provider, id) == FindById(s, tenant, provider, id)
  {
    assert forall i :: 0 <= i < |s.sources| ==> s'.sources[i] == s.sources[i];
    var a, b := FindById(s, tenant, provider, id), FindById(s', tenant, provider, id);
    assert a.Some? ==> b.Some? && b.value <= a.value;
    assert b.Some? ==> b.value < |s.sources|;
  }

  /** New sources that cannot collide with a raw row do not change what is found for it. */
  lemma LookupPairStable(s: Store, s': Store, tenant: nat, raw: Raw, p: Raw -> bool)
    requires SourcesFrom(s, s', p) && forall r :: p(r) ==> !Collide(r, raw)
    ensures LookupPair(s', tenant, raw) == LookupPair(s, tenant, raw)
  {
    forall i | |s.sources| <= i < |s'.sources|
      ensures s'.sources[i].raw.key != raw.key && !HasId(s'.sources[i], tenant, ProviderOf(raw), CanonicalId(raw))
    {
      assert !Collide(s'.sources[i].raw, raw);
    }
    FindByKeyStable(s, s', raw.key);
    FindByIdStable(s, s', tenant, ProviderOf(raw), CanonicalId(raw));
  }

  // ---------------------------------------------------------------- one more source

  lemma AttachGrows(s: Store, tenant: nat, m: nat, raw: Raw, p: Raw -> bool)
    requires Linked(s) && m < |s.messages| && p(raw)
    ensures var s' := Attach(s, tenant, m, s.messages[m], raw);
            GrowsBy(s, s', p) && Adds(s, s', raw, tenant, m) && s'.conversations == s.conversations
  {
    var s' := Attach(s, tenant, m, s.messages[m], raw);
    AttachAdds(s, tenant, m, raw);
    AddsGrows(s, s', raw, tenant, m);
    AddsLinked(s, s', raw, tenant, m, p);
  }

  lemma AttachAdds(s: Store, tenant: nat, m: nat, raw: Raw)
    requires m < |s.messages|
    ensures var s' := Attach(s, tenant, m, s.messages[m], raw);
            Adds(s, s', raw, tenant, m) && s'.conversations == s.conversations && |s'.messages| == |s.messages|
  {
  }

  lemma AddsLinked(s: Store, s': Store, raw: Raw, tenant: nat, m: nat, p: Raw -> bool)
    requires Linked(s) && m < |s.messages| == |s'.messages| && Grows(s, s') && p(raw)
    requires s'.sources == s.sources + [NewSource(tenant, m, raw)] && s'.conversations == s.conversations
    ensures Linked(s') && SourcesFrom(s, s', p)
  {
    assert forall k :: 0 <= k < |s'.messages| ==> Evolves(s.messages[k], s'.messages[k]);
  }

  lemma ReconcileGrows(s: Store, m: nat, p: Raw -> bool)
    requires Linked(s) && m < |s.messages|
    ensures GrowsBy(s, ReconcileChannel(s, m), p) && SameShape(s, ReconcileChannel(s, m))
  {
  }

  lemma LockGrows(s: Store, reservation: Reservation, p: Raw -> bool)
    requires Linked(s)
    ensures GrowsBy(s, LockConversation(s, reservation).store, p)
  {
  }

  // ---------------------------------------------------------------- one group

  /** Only message m was changed and only message m got new sources. */
  ghost predicate OnlyOn(s: Store, s': Store, m: nat) {
    s.sources <= s'.sources && |s.messages| <= |s'.messages| &&
    (forall k :: 0 <= k < |s.messages| && k != m ==> s'.messages[k] == s.messages[k]) &&
    (forall i :: |s.sources| <= i < |s'.sources| ==> s'.sources[i].message == m)
  }

  lemma {:induction false} FillGrows(s0: Store, s: Store, tenant: nat, m: nat, members: seq<Raw>, p: Raw -> bool)
    requires Linked(s) && m < |s.messages| && forall r :: r in members ==> p(r)
    ensures var s' := FillMembers(s0, s, tenant, m, members).store;
            GrowsBy(s, s', p) && OnlyOn(s, s', m) && s'.conversations == s.conversations
  {
    if members == [] {
      GrowsByRefl(s, p);
    } else {
      var before := members[..|members| - 1];
      var raw := members[|members| - 1];
      FillGrows(s0, s, tenant, m, before, p);
      var f := FillMembers(s0, s, tenant, m, before);
      FillOneGrows(s0, f, tenant, m, raw, p);
      var f' := FillMember(s0, f, tenant, m, raw);
      GrowsByTrans(s, f.store, f'.store, p);
      OnlyOnTrans(s, f.store, f'.store, m);
    }
  }

  lemma OnlyOnTrans(a: Store, b: Store, c: Store, m: nat)
    requires OnlyOn(a, b, m) && OnlyOn(b, c, m)
    ensures OnlyOn(a, c, m)
  {
    assert forall i :: |a.sources| <= i < |b.sources| ==> c.sources[i] == b.sources[i];
  }

  lemma FillOneGrows(s0: Store, f: Filled, tenant: nat, m: nat, raw: Raw, p: Raw -> bool)
    requires Linked(f.store) && m < |f.store.messages| && p(raw)
    ensures var s' := FillMember(s0, f, tenant, m, raw).store;
            GrowsBy(f.store, s', p) && OnlyOn(f.store, s', m) && s'.conversations == f.store.conversations
  {
    if LookupPair(s0, tenant, raw).Found? || Clashes(f.store, tenant, raw) {
      GrowsByRefl(f.store, p);
    } else {
      AttachGrows(f.store, tenant, m, raw, p);
    }
  }

  lemma ApplyGrows(now: int, s0: Store, s: Store, reservation: Reservation, g: Group, visible: Option<nat>,
                   p: Raw -> bool)
    requires Linked(s) && (visible.Some? ==> visible.value < |s.messages|) && forall r :: r in g.members ==> p(r)
    ensures var s' := ApplyGroup(now, s0, s, reservation, g, visible).store;
            GrowsBy(s, s', p) && OnlyOn(s, s', visible.GetOr(|s.messages|)) &&
            s'.conversations == LockConversation(s, reservation).store.conversations &&
            |s'.messages| == |s.messages| + (if visible.None? then 1 else 0)
  {
    var locked := LockConversation(s, reservation);
    LockGrows(s, reservation, p);
    match visible
    case Some(m) =>
      FillGrows(s0, locked.store, reservation.tenant, m, g.members, p);
      var f := FillMembers(s0, locked.store, reservation.tenant, m, g.members);
      ReconcileGrows(f.store, m, p);
      GrowsByTrans(s, locked.store, f.store, p);
      GrowsByTrans(s, f.store, ReconcileChannel(f.store, m), p);
    case None =>
      var m := |s.messages|;
      var born := InsertMessage(locked.store, GroupRow(now, reservation.tenant, locked.conversation, g));
      assert GrowsBy(locked.store, born, p);
      FillGrows(s0, born, reservation.tenant, m, g.members, p);
      var f := FillMembers(s0, born, reservation.tenant, m, g.members);
      ReconcileGrows(f.store, m, p);
      GrowsByTrans(s, locked.store, born, p);
      GrowsByTrans(s, born, f.store, p);
      GrowsByTrans(s, f.store, ReconcileChannel(f.store, m), p);
  }

  // ---------------------------------------------------------------- one reservation

  ghost predicate Allows(p: Raw -> bool, w: Work) {
    forall k, r :: 0 <= k < |w.groups| && r in w.groups[k].members ==> p(r)
  }

  ghost predicate AllowsTodos(p: Raw -> bool, todos: seq<Todo>) {
    forall k, r :: 0 <= k < |todos| && r in todos[k].group.members ==> p(r)
  }

  lemma UnblockedAllowed(w: Work, rs: seq<Resolution>, p: Raw -> bool)
    requires |rs| == |w.groups| && Allows(p, w)
    ensures AllowsTodos(p, Unblocked(w, rs, |rs|))
  {
  }

  lemma HandleGrows(mode: Mode, now: int, s0: Store, reservation: Reservation, before: Progress, todo: Todo,
                    q: Raw -> bool)
    requires GrowsBy(s0, before.store, q) && forall r :: r in todo.group.members ==> q(r)
    requires todo.resolution.visible.Some? ==> todo.resolution.visible.value < |before.store.messages|
    ensures var p := Handle(mode, now, s0, reservation, before, todo);
            GrowsBy(s0, p.store, q) && (mode != Apply ==> p.store == before.store)
  {
    if mode == Apply {
      ApplyGrows(now, s0, before.store, reservation, todo.group, todo.resolution.visible, q);
      GrowsByTrans(s0, before.store, Handle(mode, now, s0, reservation, before, todo).store, q);
    }
  }

  lemma {:induction false} HandleAllGrows(mode: Mode, now: int, s0: Store, reservation: Reservation, todos: seq<Todo>,
                                          report: Report, q: Raw -> bool)
    requires Linked(s0) && Fit(s0, todos) && AllowsTodos(q, todos)
    ensures GrowsBy(s0, HandleAll(mode, now, s0, reservation, todos, report).store, q)
    ensures mode != Apply ==> HandleAll(mode, now, s0, reservation, todos, report).store == s0
  {
    if todos == [] {
      GrowsByRefl(s0, q);
    } else {
      HandleAllGrows(mode, now, s0, reservation, todos[..|todos| - 1], report, q);
      HandleGrows(mode, now, s0, reservation, HandleAll(mode, now, s0, reservation, todos[..|todos| - 1], report),
                  todos[|todos| - 1], q);
    }
  }

  lemma ProcessGrows(mode: Mode, now: int, s: Store, w: Work, report: Report, q: Raw -> bool)
    requires Linked(s) && Allows(q, w)
    ensures GrowsBy(s, ProcessReservation(mode, now, s, w, report).store, q)
    ensures mode != Apply ==> ProcessReservation(mode, now, s, w, report).store == s
  {
    var rs := Resolutions(s, w);
    UnblockedAllowed(w, rs, q);
    HandleAllGrows(mode, now, s, w.reservation, Unblocked(w, rs, |rs|), AfterPhaseOne(w, rs, |s.messages|, report), q);
  }

  // ---------------------------------------------------------------- resolving does not see strangers

  lemma {:induction false} TallyStable(s: Store, s': Store, reservation: Reservation, members: seq<Raw>, p: Raw -> bool)
    requires Linked(s) && GrowsBy(s, s', p)
    requires forall r, q :: p(r) && q in members ==> !Collide(r, q)
    ensures TallyMembers(s', reservation, members) == TallyMembers(s, reservation, members)
  {
    if members != [] {
      var raw := members[|members| - 1];
      TallyStable(s, s', reservation, members[..|members| - 1], p);
      assert raw in members;
      LookupPairStable(s, s', reservation.tenant, raw, p);
    }
  }

  lemma {:induction false} VisibilityStable(s: Store, s': Store, ids: seq<nat>, visible: bool)
    requires Grows(s, s') && forall k :: 0 <= k < |ids| ==> ids[k] < |s.messages|
    ensures WithVisibility(s', ids, visible) == WithVisibility(s, ids, visible)
  {
    if ids != [] { VisibilityStable(s, s', ids[..|ids| - 1], visible); }
  }

  /** Resolving a group is not affected by rows that collide with none of its members. */
  lemma ResolveStable(s: Store, s': Store, reservation: Reservation, g: Group, p: Raw -> bool)
    requires Linked(s) && GrowsBy(s, s', p)
    requires forall r, q :: p(r) && q in g.members ==> !Collide(r, q)
    ensures ResolveGroup(s', reservation, g) == ResolveGroup(s, reservation, g)
  {
    TallyStable(s, s', reservation, g.members, p);
    var ids := TallyMembers(s, reservation, g.members).ids;
    VisibilityStable(s, s', ids, true);
    VisibilityStable(s, s', ids, false);
  }
}
