/** The dry run predicts the apply run. */
module BackfillPrediction {
  import opened Wrappers
  import opened CanonicalModel
  import opened CanonicalStore
  import opened CanonicalBackfill
  import opened BackfillFrames

  // ---------------------------------------------------------------- the whole scan

  ghost predicate MemberOf(w: Work, raw: Raw) {
    exists k :: 0 <= k < |w.groups| && raw in w.groups[k].members
  }

  /** _scan_tenant over the reservations in order. */
  function Scan(mode: Mode, now: int, s: Store, works: seq<Work>): (p: Progress)
    requires Linked(s)
    ensures Linked(p.store)
  {
    if works == [] then Progress(s, NEW_REPORT)
    else
      var before := Scan(mode, now, s, works[..|works| - 1]);
      ProcessGrows(mode, now, before.store, works[|works| - 1], before.report, (r: Raw) => true);
      ProcessReservation(mode, now, before.store, works[|works| - 1], before.report)
  }

  /** Raw rows of different reservations never share a key or a provider id. */
  ghost predicate Apart(works: seq<Work>) {
    forall a, b, r, q :: 0 <= a < b < |works| && MemberOf(works[a], r) && MemberOf(works[b], q) ==> !Collide(r, q)
  }

  ghost predicate InWorks(works: seq<Work>, r: Raw) {
    exists a :: 0 <= a < |works| && MemberOf(works[a], r)
  }

  lemma AllowsMembers(w: Work, p: Raw -> bool)
    requires forall r :: MemberOf(w, r) ==> p(r)
    ensures Allows(p, w)
  {
    forall k, r | 0 <= k < |w.groups| && r in w.groups[k].members ensures p(r) {
      assert MemberOf(w, r);
    }
  }

  lemma {:induction false} ScanGrows(mode: Mode, now: int, s: Store, works: seq<Work>, p: Raw -> bool)
    requires Linked(s) && forall r :: InWorks(works, r) ==> p(r)
    ensures GrowsBy(s, Scan(mode, now, s, works).store, p)
    ensures mode != Apply ==> Scan(mode, now, s, works).store == s
  {
    if works == [] {
      GrowsByRefl(s, p);
    } else {
      var n := |works| - 1;
      var front := works[..n];
      forall r | InWorks(front, r) ensures p(r) {
        var a :| 0 <= a < |front| && MemberOf(front[a], r);
        assert MemberOf(works[a], r);
      }
      ScanGrows(mode, now, s, front, p);
      forall r | MemberOf(works[n], r) ensures p(r) {
        assert InWorks(works, r);
      }
      AllowsMembers(works[n], p);
      var before := Scan(mode, now, s, front);
      ProcessGrows(mode, now, before.store, works[n], before.report, p);
      GrowsByTrans(s, before.store, ProcessReservation(mode, now, before.store, works[n], before.report).store, p);
    }
  }

  // ---------------------------------------------------------------- resolving is stable

  lemma GrowthKeepsResolutions(s: Store, s': Store, w: Work, p: Raw -> bool)
    requires Linked(s) && GrowsBy(s, s', p) && forall r, q :: p(r) && MemberOf(w, q) ==> !Collide(r, q)
    ensures Resolutions(s', w) == Resolutions(s, w)
  {
    forall k | 0 <= k < |w.groups|
      ensures ResolveGroup(s', w.reservation, w.groups[k]) == ResolveGroup(s, w.reservation, w.groups[k])
    {
      forall r, q | p(r) && q in w.groups[k].members ensures !Collide(r, q) {
        assert MemberOf(w, q);
      }
      ResolveStable(s, s', w.reservation, w.groups[k], p);
    }
    assert forall k :: 0 <= k < |w.groups| ==> Resolutions(s', w)[k] == Resolutions(s, w)[k];
  }

  /** No message outside the table is reached at all, so a longer table shows no further crossings. */
  lemma {:induction false} CrossesInTable(s: Store, w: Work, n: nat)
    requires Linked(s) && n >= |s.messages|
    ensures CrossAnomalies(w.reservation, Resolutions(s, w), n) ==
            CrossAnomalies(w.reservation, Resolutions(s, w), |s.messages|)
  {
    if n > |s.messages| {
      CrossesInTable(s, w, n - 1);
      if IsCross(Resolutions(s, w), n - 1) { CrossInTable(s, w, n - 1); }
    }
  }

  lemma CrossInTable(s: Store, w: Work, m: nat)
    requires Linked(s) && IsCross(Resolutions(s, w), m)
    ensures m < |s.messages|
  {
    var rs := Resolutions(s, w);
    var a, b :| 0 <= a < b < |rs| && Reaches(rs, a, m) && Reaches(rs, b, m);
    assert rs[a] == ResolveGroup(s, w.reservation, w.groups[a]);
    var i :| 0 <= i < |rs[a].messageIds| && rs[a].messageIds[i] == m;
  }

  // ---------------------------------------------------------------- counting

  /** How many of the members had no source. */
  function Unfound(s: Store, tenant: nat, members: seq<Raw>): nat {
    if members == [] then 0
    else
      Unfound(s, tenant, members[..|members| - 1]) +
      if LookupPair(s, tenant, members[|members| - 1]).Found? then 0 else 1
  }

  lemma {:induction false} FillCounts(s0: Store, s: Store, tenant: nat, m: nat, members: seq<Raw>)
    requires m < |s.messages|
    ensures var f := FillMembers(s0, s, tenant, m, members); f.inserted + f.failed == Unfound(s0, tenant, members)
  {
    if members != [] { FillCounts(s0, s, tenant, m, members[..|members| - 1]); }
  }

  ghost predicate Counts(t: Tally, unfound: nat, members: seq<Raw>) {
    t.anomalies == [] ==> unfound == |t.missing| && (t.ids == [] ==> t.missing == members)
  }

  lemma TallyMemberCounts(s: Store, reservation: Reservation, t: Tally, raw: Raw, unfound: nat, members: seq<Raw>)
    requires Linked(s) && Counts(t, unfound, members)
    ensures Counts(TallyMember(s, reservation, t, raw),
                   unfound + (if LookupPair(s, reservation.tenant, raw).Found? then 0 else 1), members + [raw])
  {
  }

  lemma {:induction false} TallyCounts(s: Store, reservation: Reservation, members: seq<Raw>)
    requires Linked(s)
    ensures Counts(TallyMembers(s, reservation, members), Unfound(s, reservation.tenant, members), members)
  {
    if members != [] {
      var n := |members| - 1;
      TallyCounts(s, reservation, members[..n]);
      TallyMemberCounts(s, reservation, TallyMembers(s, reservation, members[..n]), members[n],
                        Unfound(s, reservation.tenant, members[..n]), members[..n]);
      assert members == members[..n] + [members[n]];
    }
  }

  /** Message ids that visibility does not object to: none, or one visible message. */
  lemma QuietVisibility(s: Store, reservation: Reservation, ids: seq<nat>)
    requires forall k :: 0 <= k < |ids| ==> ids[k] < |s.messages|
    requires VisibilityAnomalies(reservation, ids, WithVisibility(s, ids, true), WithVisibility(s, ids, false)) == []
    ensures var visible := WithVisibility(s, ids, true);
            |visible| <= 1 && (visible == [] ==> ids == []) &&
            (visible != [] ==> forall m :: m in ids ==> m == visible[0])
  {
    var visible, hidden := WithVisibility(s, ids, true), WithVisibility(s, ids, false);
    assert hidden == [] && |visible| <= 1;
    assert forall m :: m in ids ==> m in visible || m in hidden;
    assert ids != [] ==> ids[0] in ids;
  }

  /** A group that nothing blocks either has a visible message, its only one, or no source at all. */
  lemma UnblockedGroup(s: Store, reservation: Reservation, g: Group)
    requires Linked(s) && !ResolveGroup(s, reservation, g).Blocking()
    ensures var r := ResolveGroup(s, reservation, g);
            TallyMembers(s, reservation, g.members).anomalies == [] &&
            Unfound(s, reservation.tenant, g.members) == |r.missing| &&
            (r.visible.None? ==> r.messageIds == [] && r.missing == g.members) &&
            (r.visible.Some? ==>
               s.messages[r.visible.value].visible && forall m :: m in r.messageIds ==> m == r.visible.value)
  {
    TallyCounts(s, reservation, g.members);
    var ids := TallyMembers(s, reservation, g.members).ids;
    QuietVisibility(s, reservation, ids);
    var visible := WithVisibility(s, ids, true);
    assert visible != [] ==> visible[0] in visible;
  }

  // ---------------------------------------------------------------- the prediction

  ghost predicate Predicts(dry: Report, applied: Report) {
    dry.wouldCreateMessages == applied.createdMessages &&
    dry.wouldCreateSources == applied.createdSources + applied.healedSources &&
    dry.blocking == applied.blocking && dry.scanned == applied.scanned && dry.groups == applied.groups
  }

  /** The todo's group was resolved in s and is not blocked. */
  ghost predicate IsOpen(s: Store, reservation: Reservation, todo: Todo)
    requires Linked(s)
  {
    todo.resolution == ResolveGroup(s, reservation, todo.group) && !todo.resolution.Blocking()
  }

  lemma UnblockedAreOpen(s: Store, w: Work)
    requires Linked(s)
    ensures var todos := Unblocked(w, Resolutions(s, w), |w.groups|);
            Fit(s, todos) && forall i :: 0 <= i < |todos| ==> IsOpen(s, w.reservation, todos[i])
  {
  }

  lemma HandlePredicts(now: int, s: Store, s0: Store, reservation: Reservation, dry: Progress, done: Progress,
                       todo: Todo)
    requires Linked(s0) && IsOpen(s0, reservation, todo)
    requires Predicts(dry.report, done.report) && |s0.messages| <= |done.store.messages|
    requires todo.resolution.visible.Some? ==> todo.resolution.visible.value < |dry.store.messages|
    ensures Predicts(Handle(DryRun, now, s, reservation, dry, todo).report,
                     Handle(Apply, now, s0, reservation, done, todo).report)
  {
    UnblockedGroup(s0, reservation, todo.group);
    ApplyCounts(now, s0, done.store, reservation, todo.group, todo.resolution.visible);
  }

  lemma ApplyCounts(now: int, s0: Store, s: Store, reservation: Reservation, g: Group, visible: Option<nat>)
    requires visible.Some? ==> visible.value < |s.messages|
    ensures var a := ApplyGroup(now, s0, s, reservation, g, visible);
            a.createdMessages == (if visible.None? then 1 else 0) &&
            a.createdSources + a.healedSources == Unfound(s0, reservation.tenant, g.members)
  {
    var locked := LockConversation(s, reservation);
    if visible.Some? {
      FillCounts(s0, locked.store, reservation.tenant, visible.value, g.members);
    } else {
      FillCounts(s0, InsertMessage(locked.store, GroupRow(now, reservation.tenant, locked.conversation, g)),
                 reservation.tenant, |s.messages|, g.members);
    }
  }

  lemma {:induction false} HandleAllPredicts(now: int, s: Store, s0: Store, reservation: Reservation, todos: seq<Todo>,
                                             dry: Report, done: Report)
    requires Linked(s0) && Predicts(dry, done) && Fit(s, todos) && Fit(s0, todos)
    requires forall i :: 0 <= i < |todos| ==> IsOpen(s0, reservation, todos[i])
    ensures Predicts(HandleAll(DryRun, now, s, reservation, todos, dry).report,
                     HandleAll(Apply, now, s0, reservation, todos, done).report)
  {
    if todos != [] {
      var n := |todos| - 1;
      HandleAllPredicts(now, s, s0, reservation, todos[..n], dry, done);
      HandlePredicts(now, s, s0, reservation, HandleAll(DryRun, now, s, reservation, todos[..n], dry),
                     HandleAll(Apply, now, s0, reservation, todos[..n], done), todos[n]);
    }
  }

  lemma ProcessPredicts(now: int, s: Store, s0: Store, w: Work, dry: Report, done: Report)
    requires Linked(s) && Linked(s0) && |s.messages| <= |s0.messages| && Resolutions(s0, w) == Resolutions(s, w) &&
             Predicts(dry, done)
    ensures Predicts(ProcessReservation(DryRun, now, s, w, dry).report,
                     ProcessReservation(Apply, now, s0, w, done).report)
  {
    CrossesInTable(s, w, |s0.messages|);
    UnblockedAreOpen(s, w);
    UnblockedAreOpen(s0, w);
    var rs := Resolutions(s0, w);
    HandleAllPredicts(now, s, s0, w.reservation, Unblocked(w, rs, |rs|),
                      AfterPhaseOne(w, rs, |s.messages|, dry), AfterPhaseOne(w, rs, |s0.messages|, done));
  }

  /** From one and the same store, whatever it holds, a dry run over all reservations announces
      exactly the messages and sources an apply run creates or heals, and the same blocking list. */
  lemma {:induction false} DryRunPredictsApply(now: int, s: Store, works: seq<Work>)
    requires Linked(s) && Apart(works)
    ensures Predicts(Scan(DryRun, now, s, works).report, Scan(Apply, now, s, works).report)
    ensures Scan(DryRun, now, s, works).store == s
  {
    ScanGrows(DryRun, now, s, works, (r: Raw) => true);
    if works != [] {
      var n := |works| - 1;
      var front := works[..n];
      assert Apart(front);
      DryRunPredictsApply(now, s, front);
      ScanGrows(Apply, now, s, front, (r: Raw) => InWorks(front, r));
      NextPredicts(now, s, works, Scan(DryRun, now, s, front).report, Scan(Apply, now, s, front));
    }
  }

  lemma NextPredicts(now: int, s: Store, works: seq<Work>, dry: Report, done: Progress)
    requires Linked(s) && works != [] && Apart(works) && Predicts(dry, done.report)
    requires GrowsBy(s, done.store, (r: Raw) => InWorks(works[..|works| - 1], r))
    ensures var w := works[|works| - 1];
            Predicts(ProcessReservation(DryRun, now, s, w, dry).report,
                     ProcessReservation(Apply, now, done.store, w, done.report).report)
  {
    var n := |works| - 1;
    var front, w := works[..n], works[n];
    var p := (r: Raw) => InWorks(front, r);
    forall r, q | p(r) && MemberOf(w, q) ensures !Collide(r, q) {
      var a :| 0 <= a < |front| && MemberOf(front[a], r);
      assert MemberOf(works[a], r);
    }
    GrowthKeepsResolutions(s, done.store, w, p);
    ProcessPredicts(now, s, done.store, w, dry, done.report);
  }
}
