/** The backfill when raw rows may share a provider id: which messages are left without a source. */
module BackfillSharedIds {
  import opened Wrappers
  import opened CanonicalModel
  import opened CanonicalStore
  import opened CanonicalStoreLaws
  import opened CanonicalBackfill
  import opened BackfillFrames
  import opened BackfillPrediction
  import opened CanonicalRuns

  // ---------------------------------------------------------------- one group

  /** Some member had no source when the group was resolved in s0, and none that blocks it is in s. */
  ghost predicate SomeInsertable(s0: Store, s: Store, tenant: nat, members: seq<Raw>) {
    exists k :: 0 <= k < |members| && Insertable(s0, s, tenant, members[k])
  }

  ghost predicate Insertable(s0: Store, s: Store, tenant: nat, raw: Raw) {
    !LookupPair(s0, tenant, raw).Found? && !Clashes(s, tenant, raw)
  }

  lemma SameSourcesClash(s: Store, s': Store, tenant: nat, raw: Raw)
    requires s'.sources == s.sources
    ensures Clashes(s', tenant, raw) <==> Clashes(s, tenant, raw)
  {
    if Clashes(s, tenant, raw) { ClashPersists(s, s', tenant, raw); }
    if Clashes(s', tenant, raw) { ClashPersists(s', s, tenant, raw); }
  }

  /** How the inserts into s have gone so far: f was filled with some of the members. */
  ghost predicate Inserts(s: Store, f: Filled, some: bool) {
    |f.store.sources| == |s.sources| + f.inserted && (f.inserted == 0 ==> f.store.sources == s.sources) &&
    (f.inserted > 0 <==> some)
  }

  lemma FillInsertsNext(s0: Store, s: Store, f: Filled, tenant: nat, m: nat, raw: Raw, some: bool)
    requires m < |f.store.messages| && Inserts(s, f, some)
    ensures Inserts(s, FillMember(s0, f, tenant, m, raw), some || Insertable(s0, s, tenant, raw))
  {
    if f.inserted == 0 { SameSourcesClash(s, f.store, tenant, raw); }
  }

  lemma FillOfMore(s0: Store, s: Store, tenant: nat, m: nat, front: seq<Raw>, last: Raw)
    requires m < |s.messages|
    ensures FillMembers(s0, s, tenant, m, front + [last]) ==
            FillMember(s0, FillMembers(s0, s, tenant, m, front), tenant, m, last)
  {
    assert (front + [last])[..|front|] == front;
  }

  lemma {:induction false} FillInserts(s0: Store, s: Store, tenant: nat, m: nat, members: seq<Raw>)
    requires m < |s.messages|
    ensures Inserts(s, FillMembers(s0, s, tenant, m, members), SomeInsertable(s0, s, tenant, members))
    decreases |members|
  {
    if members != [] {
      var front, last := SplitLast(members);
      FillInserts(s0, s, tenant, m, front);
      FillNext(s0, s, tenant, m, front, last);
    }
  }

  lemma FillNext(s0: Store, s: Store, tenant: nat, m: nat, front: seq<Raw>, last: Raw)
    requires m < |s.messages|
    requires Inserts(s, FillMembers(s0, s, tenant, m, front), SomeInsertable(s0, s, tenant, front))
    ensures Inserts(s, FillMembers(s0, s, tenant, m, front + [last]), SomeInsertable(s0, s, tenant, front + [last]))
  {
    FillInsertsNext(s0, s, FillMembers(s0, s, tenant, m, front), tenant, m, last,
                    SomeInsertable(s0, s, tenant, front));
    SomeOfMore(s0, s, tenant, front, last);
    FillOfMore(s0, s, tenant, m, front, last);
  }

  lemma SomeOfMore(s0: Store, s: Store, tenant: nat, front: seq<Raw>, last: Raw)
    ensures SomeInsertable(s0, s, tenant, front + [last]) <==>
            SomeInsertable(s0, s, tenant, front) || Insertable(s0, s, tenant, last)
  {
    var all := front + [last];
    if SomeInsertable(s0, s, tenant, front) {
      var k :| 0 <= k < |front| && Insertable(s0, s, tenant, front[k]);
      assert all[k] == front[k];
    }
    assert all[|front|] == last;
  }

  /** The message that applying a group inserts has a source exactly when some member that had no source
      when the group was resolved is not blocked by a stored source when it is applied. */
  lemma BornWithSourceIff(now: int, s0: Store, s: Store, reservation: Reservation, g: Group)
    requires Linked(s)
    ensures var a := ApplyGroup(now, s0, s, reservation, g, None);
            a.createdMessages == 1 && |a.store.messages| == |s.messages| + 1 &&
            (HasSource(a.store, |s.messages|) <==> SomeInsertable(s0, s, reservation.tenant, g.members))
  {
    var m := |s.messages|;
    var l := LockConversation(s, reservation);
    var born := InsertMessage(l.store, GroupRow(now, reservation.tenant, l.conversation, g));
    FillInserts(s0, born, reservation.tenant, m, g.members);
    forall k | 0 <= k < |g.members|
      ensures Insertable(s0, born, reservation.tenant, g.members[k]) <==>
              Insertable(s0, s, reservation.tenant, g.members[k])
    {
      SameSourcesClash(s, born, reservation.tenant, g.members[k]);
    }
    ApplyGrows(now, s0, s, reservation, g, None, (r: Raw) => true);
    var f := FillMembers(s0, born, reservation.tenant, m, g.members);
    var s' := ApplyGroup(now, s0, s, reservation, g, None).store;
    assert s'.sources == f.store.sources;
    assert forall i :: 0 <= i < |s.sources| ==> s'.sources[i] == s.sources[i] && s'.sources[i].message < m;
    if f.inserted > 0 { assert s'.sources[|s.sources|].message == m; }
  }

  // ---------------------------------------------------------------- what blocks a row

  /** What the source says about its raw row, and that a row of its key is that row. */
  ghost predicate KeptAt(x: Source, tenant: nat, raw: Raw) {
    x.provider == ProviderOf(x.raw) && x.providerId == CanonicalId(x.raw) &&
    (x.raw.key == raw.key ==> x.raw == raw && x.tenant == tenant)
  }

  ghost predicate Kept(s: Store, tenant: nat, p: Raw -> bool) {
    forall i, r {:trigger KeptAt(s.sources[i], tenant, r)} :: 0 <= i < |s.sources| && p(r) ==>
      KeptAt(s.sources[i], tenant, r)
  }

  /** What blocks a row blocks every row it collides with. */
  lemma BlocksBoth(x: Source, tenant: nat, r: Raw, q: Raw)
    requires KeptAt(x, tenant, r) && SameRow(r, q) && Blocks(x, tenant, r) && Collide(r, q)
    ensures Blocks(x, tenant, q)
  {
  }

  lemma ClashesBoth(s: Store, tenant: nat, p: Raw -> bool, r: Raw, q: Raw)
    requires Kept(s, tenant, p) && p(r) && SameRow(r, q) && Clashes(s, tenant, r) && Collide(r, q)
    ensures Clashes(s, tenant, q)
  {
    var i :| 0 <= i < |s.sources| && Blocks(s.sources[i], tenant, r);
    assert KeptAt(s.sources[i], tenant, r);
    BlocksBoth(s.sources[i], tenant, r, q);
  }

  lemma NewBlocks(tenant: nat, m: nat, r: Raw, q: Raw)
    ensures Blocks(NewSource(tenant, m, r), tenant, q) <==> Collide(r, q)
  {
  }

  lemma ClashesAfterAdd(s: Store, s': Store, tenant: nat, m: nat, r: Raw, q: Raw)
    requires s'.sources == s.sources + [NewSource(tenant, m, r)]
    ensures Clashes(s', tenant, q) <==> Clashes(s, tenant, q) || Collide(r, q)
  {
    NewBlocks(tenant, m, r, q);
    assert s'.sources[|s.sources|] == NewSource(tenant, m, r);
    if Clashes(s, tenant, q) { ClashPersists(s, s', tenant, q); }
    if Clashes(s', tenant, q) && !Collide(r, q) {
      var i :| 0 <= i < |s'.sources| && Blocks(s'.sources[i], tenant, q);
      assert s.sources[i] == s'.sources[i];
    }
  }

  lemma KeptAfterAdd(s: Store, s': Store, tenant: nat, m: nat, r: Raw, p: Raw -> bool)
    requires Kept(s, tenant, p) && s'.sources == s.sources + [NewSource(tenant, m, r)]
    requires forall q :: p(q) ==> SameRow(r, q)
    ensures Kept(s', tenant, p)
  {
    forall i, q | 0 <= i < |s'.sources| && p(q) ensures KeptAt(s'.sources[i], tenant, q) {
      if i < |s.sources| { assert KeptAt(s.sources[i], tenant, q); }
    }
  }

  // ---------------------------------------------------------------- what blocks a row after a group

  /** Rows with one key are one row. */
  ghost predicate OneRowEach(p: Raw -> bool) {
    forall r, q :: p(r) && p(q) ==> SameRow(r, q)
  }

  ghost predicate CollidesIn(members: seq<Raw>, q: Raw) {
    exists k :: 0 <= k < |members| && Collide(members[k], q)
  }

  lemma CollidesInMore(front: seq<Raw>, last: Raw, q: Raw)
    ensures CollidesIn(front + [last], q) <==> CollidesIn(front, q) || Collide(last, q)
  {
    var all := front + [last];
    assert all[|front|] == last;
    if CollidesIn(front, q) {
      var k :| 0 <= k < |front| && Collide(front[k], q);
      assert all[k] == front[k];
    }
  }

  /** The row has a source already, or its insert was refused, or it has one now. */
  lemma FillMemberClash(s0: Store, f: Filled, tenant: nat, m: nat, r: Raw, p: Raw -> bool, q: Raw)
    requires m < |f.store.messages| && Kept(f.store, tenant, p) && s0.sources <= f.store.sources
    requires p(r) && SameRow(r, q)
    ensures Clashes(FillMember(s0, f, tenant, m, r).store, tenant, q) <==> Clashes(f.store, tenant, q) || Collide(r, q)
  {
    if Clashes(s0, tenant, r) { ClashPersists(s0, f.store, tenant, r); }
    if Clashes(f.store, tenant, r) {
      if Collide(r, q) { ClashesBoth(f.store, tenant, p, r, q); }
    } else {
      ClashesAfterAdd(f.store, FillMember(s0, f, tenant, m, r).store, tenant, m, r, q);
    }
  }

  lemma FillMemberKept(s0: Store, f: Filled, tenant: nat, m: nat, r: Raw, p: Raw -> bool)
    requires m < |f.store.messages| && Kept(f.store, tenant, p) && p(r) && OneRowEach(p)
    ensures Kept(FillMember(s0, f, tenant, m, r).store, tenant, p)
    ensures f.store.sources <= FillMember(s0, f, tenant, m, r).store.sources
  {
    if !LookupPair(s0, tenant, r).Found? && !Clashes(f.store, tenant, r) {
      KeptAfterAdd(f.store, FillMember(s0, f, tenant, m, r).store, tenant, m, r, p);
    }
  }

  lemma {:induction false} FillKept(s0: Store, s: Store, tenant: nat, m: nat, members: seq<Raw>, p: Raw -> bool)
    requires m < |s.messages| && Kept(s, tenant, p) && OneRowEach(p) && forall r :: r in members ==> p(r)
    ensures Kept(FillMembers(s0, s, tenant, m, members).store, tenant, p)
    ensures s.sources <= FillMembers(s0, s, tenant, m, members).store.sources
    decreases |members|
  {
    if members != [] {
      var front, last := SplitLast(members);
      FillKept(s0, s, tenant, m, front, p);
      FillOfMore(s0, s, tenant, m, front, last);
      FillMemberKept(s0, FillMembers(s0, s, tenant, m, front), tenant, m, last, p);
    }
  }

  /** After filling, a row is blocked exactly when it was before or collides with a member. */
  lemma {:induction false} FillClash(s0: Store, s: Store, tenant: nat, m: nat, members: seq<Raw>, p: Raw -> bool,
                                     q: Raw)
    requires m < |s.messages| && Kept(s, tenant, p) && OneRowEach(p) && s0.sources <= s.sources
    requires p(q) && forall r :: r in members ==> p(r)
    ensures Clashes(FillMembers(s0, s, tenant, m, members).store, tenant, q) <==>
            Clashes(s, tenant, q) || CollidesIn(members, q)
    decreases |members|
  {
    if members != [] {
      var front, last := SplitLast(members);
      FillClash(s0, s, tenant, m, front, p, q);
      FillKept(s0, s, tenant, m, front, p);
      FillOfMore(s0, s, tenant, m, front, last);
      FillMemberClash(s0, FillMembers(s0, s, tenant, m, front), tenant, m, last, p, q);
      CollidesInMore(front, last, q);
    }
  }

  lemma SameSourcesKept(s: Store, s': Store, tenant: nat, p: Raw -> bool)
    requires s'.sources == s.sources && Kept(s, tenant, p)
    ensures Kept(s', tenant, p)
  {
    forall i, q | 0 <= i < |s'.sources| && p(q) ensures KeptAt(s'.sources[i], tenant, q) {
      assert KeptAt(s.sources[i], tenant, q);
    }
  }

  /** The store in which the members of a group are filled in. */
  lemma FillOfApply(now: int, s0: Store, s: Store, reservation: Reservation, g: Group, visible: Option<nat>)
    returns (b: Store, m: nat)
    requires visible.Some? ==> visible.value < |s.messages|
    ensures m == visible.GetOr(|s.messages|) < |b.messages| && b.sources == s.sources
    ensures ApplyGroup(now, s0, s, reservation, g, visible).store.sources ==
            FillMembers(s0, b, reservation.tenant, m, g.members).store.sources
  {
    var l := LockConversation(s, reservation);
    m := visible.GetOr(|s.messages|);
    b := if visible.Some? then l.store
         else InsertMessage(l.store, GroupRow(now, reservation.tenant, l.conversation, g));
  }

  lemma ApplyClash(now: int, s0: Store, s: Store, reservation: Reservation, g: Group, visible: Option<nat>,
                   p: Raw -> bool, q: Raw)
    requires (visible.Some? ==> visible.value < |s.messages|) && s0.sources <= s.sources
    requires Kept(s, reservation.tenant, p) && OneRowEach(p) && p(q) && forall r :: r in g.members ==> p(r)
    ensures var s' := ApplyGroup(now, s0, s, reservation, g, visible).store;
            Kept(s', reservation.tenant, p) && s.sources <= s'.sources &&
            (Clashes(s', reservation.tenant, q) <==> Clashes(s, reservation.tenant, q) || CollidesIn(g.members, q))
  {
    var b, m := FillOfApply(now, s0, s, reservation, g, visible);
    var f := FillMembers(s0, b, reservation.tenant, m, g.members).store;
    SameSourcesKept(s, b, reservation.tenant, p);
    SameSourcesClash(s, b, reservation.tenant, q);
    FillKept(s0, b, reservation.tenant, m, g.members, p);
    FillClash(s0, b, reservation.tenant, m, g.members, p, q);
    SameSourcesKept(f, ApplyGroup(now, s0, s, reservation, g, visible).store, reservation.tenant, p);
    SameSourcesClash(f, ApplyGroup(now, s0, s, reservation, g, visible).store, reservation.tenant, q);
  }

  // ---------------------------------------------------------------- what blocks a row after the earlier groups

  ghost predicate CollidesEarlier(todos: seq<Todo>, q: Raw) {
    exists i :: 0 <= i < |todos| && CollidesIn(todos[i].group.members, q)
  }

  lemma CollidesEarlierMore(front: seq<Todo>, last: Todo, q: Raw)
    ensures CollidesEarlier(front + [last], q) <==> CollidesEarlier(front, q) || CollidesIn(last.group.members, q)
  {
    var all := front + [last];
    assert all[|front|] == last;
    if CollidesEarlier(front, q) {
      var i :| 0 <= i < |front| && CollidesIn(front[i].group.members, q);
      assert all[i] == front[i];
    }
  }

  ghost predicate TodosFrom(p: Raw -> bool, todos: seq<Todo>) {
    forall k, r :: 0 <= k < |todos| && r in todos[k].group.members ==> p(r)
  }

  lemma {:induction false} HandleAllClash(now: int, s0: Store, reservation: Reservation, todos: seq<Todo>,
                                          report: Report,
                                          p: Raw -> bool, q: Raw)
    requires Fit(s0, todos) && Kept(s0, reservation.tenant, p) && OneRowEach(p) && p(q) && TodosFrom(p, todos)
    ensures var s := HandleAll(Apply, now, s0, reservation, todos, report).store;
            Kept(s, reservation.tenant, p) && s0.sources <= s.sources &&
            (Clashes(s, reservation.tenant, q) <==> Clashes(s0, reservation.tenant, q) || CollidesEarlier(todos, q))
    decreases |todos|
  {
    if todos != [] {
      var front, last := SplitLast(todos);
      SplitTodos(s0, p, todos, front, last);
      HandleAllClash(now, s0, reservation, front, report, p, q);
      HandleAllNext(Apply, now, s0, reservation, front, report, last);
      var s := HandleAll(Apply, now, s0, reservation, front, report).store;
      ApplyClash(now, s0, s, reservation, last.group, last.resolution.visible, p, q);
      CollidesEarlierMore(front, last, q);
    }
  }

  lemma SplitTodos(s0: Store, p: Raw -> bool, todos: seq<Todo>, front: seq<Todo>, last: Todo)
    requires todos == front + [last] && Fit(s0, todos) && TodosFrom(p, todos)
    ensures Fit(s0, front) && TodosFrom(p, front) && forall r :: r in last.group.members ==> p(r)
  {
    assert todos[|front|] == last;
    assert forall k :: 0 <= k < |front| ==> todos[k] == front[k];
  }

  // ---------------------------------------------------------------- which new messages have a source

  /** Some member is blocked by no stored source and collides with no row of an earlier open group. */
  ghost predicate Gets(s: Store, tenant: nat, earlier: seq<Todo>, members: seq<Raw>) {
    exists k :: 0 <= k < |members| && IsFree(s, tenant, earlier, members[k])
  }

  ghost predicate IsFree(s: Store, tenant: nat, earlier: seq<Todo>, raw: Raw) {
    !Clashes(s, tenant, raw) && !CollidesEarlier(earlier, raw)
  }

  /** So has every open group that no visible message waits for. */
  ghost predicate AllGet(s: Store, tenant: nat, todos: seq<Todo>) {
    forall i :: 0 <= i < |todos| && todos[i].resolution.visible.None? ==>
      Gets(s, tenant, todos[..i], todos[i].group.members)
  }

  lemma AllGetMore(s: Store, tenant: nat, front: seq<Todo>, last: Todo)
    ensures AllGet(s, tenant, front + [last]) <==>
            AllGet(s, tenant, front) && (last.resolution.visible.None? ==> Gets(s, tenant, front, last.group.members))
  {
    var all := front + [last];
    assert all[|front|] == last && all[..|front|] == front;
    assert forall i :: 0 <= i < |front| ==> all[i] == front[i] && all[..i] == front[..i];
  }

  /** Every message beyond the old table has a source. */
  ghost predicate NewSourced(base: nat, s: Store) {
    forall m :: base <= m < |s.messages| ==> HasSource(s, m)
  }

  lemma OtherSources(s: Store, s': Store, target: nat, m: nat)
    requires OnlyOn(s, s', target) && m != target
    ensures HasSource(s', m) <==> HasSource(s, m)
  {
    if HasSource(s, m) {
      var i :| 0 <= i < |s.sources| && s.sources[i].message == m;
      assert s'.sources[i] == s.sources[i];
    }
    if HasSource(s', m) {
      var i :| 0 <= i < |s'.sources| && s'.sources[i].message == m;
      assert s.sources[i] == s'.sources[i];
    }
  }

  lemma ApplyNewSourced(now: int, s0: Store, s: Store, reservation: Reservation, g: Group, visible: Option<nat>,
                        base: nat)
    requires Linked(s) && base <= |s.messages| && (visible.Some? ==> visible.value < base)
    ensures NewSourced(base, ApplyGroup(now, s0, s, reservation, g, visible).store) <==>
            NewSourced(base, s) && (visible.None? ==> SomeInsertable(s0, s, reservation.tenant, g.members))
  {
    var s', target := ApplyGroup(now, s0, s, reservation, g, visible).store, visible.GetOr(|s.messages|);
    ApplyGrows(now, s0, s, reservation, g, visible, (r: Raw) => true);
    forall m | base <= m < |s.messages| ensures HasSource(s', m) <==> HasSource(s, m) {
      OtherSources(s, s', target, m);
    }
    if visible.None? { BornWithSourceIff(now, s0, s, reservation, g); }
  }

  lemma InsertableIsFree(s0: Store, s: Store, tenant: nat, earlier: seq<Todo>, members: seq<Raw>)
    requires forall q :: q in members ==>
               (Clashes(s, tenant, q) <==> Clashes(s0, tenant, q) || CollidesEarlier(earlier, q))
    ensures SomeInsertable(s0, s, tenant, members) <==> Gets(s0, tenant, earlier, members)
  {
    forall k | 0 <= k < |members|
      ensures Insertable(s0, s, tenant, members[k]) <==> IsFree(s0, tenant, earlier, members[k])
    {
      assert members[k] in members;
    }
  }

  lemma {:induction false} HandleAllSourcedIff(now: int, s0: Store, reservation: Reservation, todos: seq<Todo>,
                                               report: Report, p: Raw -> bool)
    requires Linked(s0) && Fit(s0, todos) && Kept(s0, reservation.tenant, p) && OneRowEach(p) && TodosFrom(p, todos)
    ensures NewSourced(|s0.messages|, HandleAll(Apply, now, s0, reservation, todos, report).store) <==>
            AllGet(s0, reservation.tenant, todos)
    decreases |todos|
  {
    if todos != [] {
      var front, last := SplitLast(todos);
      SplitTodos(s0, p, todos, front, last);
      HandleAllSourcedIff(now, s0, reservation, front, report, p);
      SourcedNext(now, s0, reservation, front, last, report, p);
    }
  }

  lemma SourcedNext(now: int, s0: Store, reservation: Reservation, front: seq<Todo>, last: Todo, report: Report,
                    p: Raw -> bool)
    requires Linked(s0) && Fit(s0, front) && Fit(s0, front + [last]) && Kept(s0, reservation.tenant, p) && OneRowEach(p)
    requires TodosFrom(p, front) && forall r :: r in last.group.members ==> p(r)
    requires NewSourced(|s0.messages|, HandleAll(Apply, now, s0, reservation, front, report).store) <==>
             AllGet(s0, reservation.tenant, front)
    ensures NewSourced(|s0.messages|, HandleAll(Apply, now, s0, reservation, front + [last], report).store) <==>
            AllGet(s0, reservation.tenant, front + [last])
  {
    var s := HandleAll(Apply, now, s0, reservation, front, report).store;
    HandleAllGrows(Apply, now, s0, reservation, front, report, (r: Raw) => true);
    HandleAllNext(Apply, now, s0, reservation, front, report, last);
    forall q | q in last.group.members
      ensures Clashes(s, reservation.tenant, q) <==>
              Clashes(s0, reservation.tenant, q) || CollidesEarlier(front, q)
    {
      HandleAllClash(now, s0, reservation, front, report, p, q);
    }
    InsertableIsFree(s0, s, reservation.tenant, front, last.group.members);
    LastFits(s0, front, last);
    ApplyNewSourced(now, s0, s, reservation, last.group, last.resolution.visible, |s0.messages|);
    AllGetMore(s0, reservation.tenant, front, last);
  }

  lemma LastFits(s0: Store, front: seq<Todo>, last: Todo)
    requires Fit(s0, front + [last])
    ensures last.resolution.visible.Some? ==> last.resolution.visible.value < |s0.messages|
  {
    assert (front + [last])[|front|] == last;
  }

  /** The rows of the work are the reservation's, and rows with one key, stored ones too, are one row. */
  ghost predicate RowsOk(s: Store, w: Work) {
    (forall q :: MemberOf(w, q) ==> q.reservation == Some(w.reservation)) && OneRowEach((r: Raw) => MemberOf(w, r)) &&
    forall i, q :: 0 <= i < |s.sources| && MemberOf(w, q) ==> SameRow(s.sources[i].raw, q)
  }

  lemma StoredRowsAreKept(s: Store, w: Work)
    requires Core(s) && RowsOk(s, w)
    ensures Kept(s, w.reservation.tenant, (r: Raw) => MemberOf(w, r))
  {
    forall i, q | 0 <= i < |s.sources| && MemberOf(w, q) ensures KeptAt(s.sources[i], w.reservation.tenant, q) {
      assert WellHoused(s, i);
    }
  }

  /** Whatever provider ids the rows share, a backfill step leaves every message with a source exactly when
      each open group that no visible message waits for has a row which no stored source blocks and which
      collides with no row of an earlier open group. */
  lemma StepKeepsSourcedIff(now: int, s: Store, w: Work, report: Report)
    requires Valid(s) && RowsOk(s, w)
    ensures Sourced(ProcessReservation(Apply, now, s, w, report).store) <==>
            AllGet(s, w.reservation.tenant, Unblocked(w, Resolutions(s, w), |w.groups|))
  {
    var rs, p := Resolutions(s, w), (r: Raw) => MemberOf(w, r);
    var todos, start := Unblocked(w, rs, |rs|), AfterPhaseOne(w, rs, |s.messages|, report);
    UnblockedAreOpen(s, w);
    TodosAreMembers(w, rs);
    StoredRowsAreKept(s, w);
    HandleAllSourcedIff(now, s, w.reservation, todos, start, p);
    ProcessGrows(Apply, now, s, w, report, (r: Raw) => true);
    OldStaySourced(s, ProcessReservation(Apply, now, s, w, report).store);
  }

  lemma TodosAreMembers(w: Work, rs: seq<Resolution>)
    requires |rs| == |w.groups|
    ensures TodosFrom((r: Raw) => MemberOf(w, r), Unblocked(w, rs, |rs|))
  {
  }

  lemma OldStaySourced(s: Store, s': Store)
    requires Sourced(s) && s.sources <= s'.sources && |s.messages| <= |s'.messages|
    ensures Sourced(s') <==> NewSourced(|s.messages|, s')
  {
    forall m | 0 <= m < |s.messages| ensures HasSource(s', m) {
      assert HasSource(s, m);
      SourcesPersist(s, s', m);
    }
  }

  // ---------------------------------------------------------------- two rows with one id

  /** A row that no stored source blocks resolves to nothing, with nothing to report. */
  lemma MissingResolves(s: Store, reservation: Reservation, g: Group, raw: Raw)
    requires Linked(s) && g.members == [raw] && !Clashes(s, reservation.tenant, raw)
    ensures ResolveGroup(s, reservation, g) == Resolution([], [raw], None, [])
  {
    assert [raw][..0] == [];
    assert TallyMembers(s, reservation, []) == Tally([], [], []);
    assert TallyMembers(s, reservation, [raw]) == Tally([], [raw], []);
  }

  lemma KeepTwo(p: nat -> bool)
    requires p(0) && p(1)
    ensures Keep(p, 2) == [0, 1]
  {
    var none := Keep(p, 0);
    KeepNext(p, 0);
    KeepNext(p, 1);
    assert none == [];
    assert none + [0] + [1] == [0, 1];
  }

  lemma KeepNext(p: nat -> bool, n: nat)
    requires p(n)
    ensures Keep(p, n + 1) == Keep(p, n) + [n]
  {
  }

  lemma BothAreOpen(rs: seq<Resolution>)
    requires |rs| == 2 && rs[0].messageIds == rs[1].messageIds == [] && rs[0].anomalies == rs[1].anomalies == []
    ensures OpenIndexes(rs, 2) == [0, 1]
  {
    KeepTwo((k: nat) => k < |rs| && !Blocked(rs, k));
  }

  lemma HandleTwo(now: int, s: Store, reservation: Reservation, x: Todo, y: Todo, report: Report)
    requires x.resolution.visible.None? && y.resolution.visible.None?
    ensures HandleAll(Apply, now, s, reservation, [x, y], report).store ==
            ApplyGroup(now, s, ApplyGroup(now, s, s, reservation, x.group, None).store, reservation, y.group,
                       None).store
  {
    assert [x][..0] == [] && [x, y][..1] == [x];
    assert HandleAll(Apply, now, s, reservation, [], report) == Progress(s, report);
    assert HandleAll(Apply, now, s, reservation, [x], report).store ==
           ApplyGroup(now, s, s, reservation, x.group, None).store;
  }

  /** Two groups that resolve to nothing are both open and are applied one after the other. */
  lemma BothAreApplied(now: int, s: Store, w: Work, g: Group, h: Group, a: Raw, b: Raw, report: Report)
    requires Linked(s) && w.groups == [g, h] && g.members == [a] && h.members == [b]
    requires !Clashes(s, w.reservation.tenant, a) && !Clashes(s, w.reservation.tenant, b)
    ensures var first := ApplyGroup(now, s, s, w.reservation, g, None);
            ProcessReservation(Apply, now, s, w, report).store ==
                ApplyGroup(now, s, first.store, w.reservation, h, None).store
  {
    var rs := Resolutions(s, w);
    MissingResolves(s, w.reservation, g, a);
    MissingResolves(s, w.reservation, h, b);
    BothAreOpen(rs);
    var todos := Unblocked(w, rs, 2);
    assert todos == [Todo(0, g, rs[0]), Todo(1, h, rs[1])];
    HandleTwo(now, s, w.reservation, todos[0], todos[1], AfterPhaseOne(w, rs, |s.messages|, report));
  }

  /** Filling with one row that nothing blocks inserts its source. */
  lemma FillSingle(s0: Store, s: Store, tenant: nat, m: nat, raw: Raw)
    requires m < |s.messages| && !Clashes(s0, tenant, raw) && !Clashes(s, tenant, raw)
    ensures FillMembers(s0, s, tenant, m, [raw]).store.sources == s.sources + [NewSource(tenant, m, raw)]
  {
    assert [raw][..0] == [];
    assert FillMembers(s0, s, tenant, m, []) == Filled(s, 0, 0);
  }

  /** The source that a group of one row leaves blocks every row with the same provider id. */
  lemma FirstBlocks(now: int, s: Store, reservation: Reservation, g: Group, a: Raw, b: Raw)
    requires Linked(s) && g.members == [a] && !Clashes(s, reservation.tenant, a)
    requires CanonicalId(a).Some? && CanonicalId(a) == CanonicalId(b) && ProviderOf(a) == ProviderOf(b)
    ensures Clashes(ApplyGroup(now, s, s, reservation, g, None).store, reservation.tenant, b)
  {
    var l := LockConversation(s, reservation);
    var born := InsertMessage(l.store, GroupRow(now, reservation.tenant, l.conversation, g));
    SameSourcesClash(s, born, reservation.tenant, a);
    FillSingle(s, born, reservation.tenant, |s.messages|, a);
    var s' := ApplyGroup(now, s, s, reservation, g, None).store;
    assert Blocks(s'.sources[|s.sources|], reservation.tenant, b);
  }

  /** Two raw rows with one provider id, in two groups of one reservation: the backfill step applies both
      groups, the second one's message is inserted and its only source is refused. So a message without a
      source is left, and distinct provider ids cannot be given up. */
  lemma SharedIdLosesItsSource(now: int, s: Store, w: Work, g: Group, h: Group, a: Raw, b: Raw, report: Report)
    requires Linked(s) && w.groups == [g, h] && g.members == [a] && h.members == [b]
    requires CanonicalId(a).Some? && CanonicalId(a) == CanonicalId(b) && ProviderOf(a) == ProviderOf(b)
    requires !Clashes(s, w.reservation.tenant, a) && !Clashes(s, w.reservation.tenant, b)
    ensures var s' := ProcessReservation(Apply, now, s, w, report).store;
            |s'.messages| == |s.messages| + 2 && !HasSource(s', |s.messages| + 1) && !Sourced(s')
  {
    BothAreApplied(now, s, w, g, h, a, b, report);
    var first := ApplyGroup(now, s, s, w.reservation, g, None).store;
    ApplyGrows(now, s, s, w.reservation, g, None, (r: Raw) => true);
    FirstBlocks(now, s, w.reservation, g, a, b);
    LoneRowIsRefused(now, s, first, w.reservation, h, b);
    BornWithSourceIff(now, s, s, w.reservation, g);
  }

  lemma LoneRowIsRefused(now: int, s0: Store, s: Store, reservation: Reservation, h: Group, b: Raw)
    requires Linked(s) && h.members == [b] && Clashes(s, reservation.tenant, b)
    ensures var s' := ApplyGroup(now, s0, s, reservation, h, None).store;
            |s'.messages| == |s.messages| + 1 && !HasSource(s', |s.messages|)
  {
    BornWithSourceIff(now, s0, s, reservation, h);
  }
}
