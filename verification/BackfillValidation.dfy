/** What a validation finds: of every anomaly exactly when it is reported, and so when nothing is. */
module BackfillValidation {
  import opened Wrappers
  import opened CanonicalModel
  import opened CanonicalStore
  import opened CanonicalBackfill
  import opened BackfillPrediction
  import opened BackfillRows

  // ---------------------------------------------------------------- the source of one member

  /** Source i is the first with the row's key. */
  ghost predicate FirstByKey(s: Store, raw: Raw, i: nat) {
    i < |s.sources| && s.sources[i].raw.key == raw.key && forall j :: 0 <= j < i ==> s.sources[j].raw.key != raw.key
  }

  /** Source i is the first of the tenant with the row's provider id. */
  ghost predicate FirstById(s: Store, tenant: nat, raw: Raw, i: nat) {
    i < |s.sources| && HasId(s.sources[i], tenant, ProviderOf(raw), CanonicalId(raw)) &&
    forall j :: 0 <= j < i ==> !HasId(s.sources[j], tenant, ProviderOf(raw), CanonicalId(raw))
  }

  /** The row's key and its provider id lead to two different sources. */
  ghost predicate Torn(s: Store, tenant: nat, raw: Raw) {
    exists i, j :: FirstByKey(s, raw, i) && FirstById(s, tenant, raw, j) && i != j
  }

  /** The row's key leads to source i, or its provider id does when its key leads nowhere. */
  ghost predicate LeadsTo(s: Store, tenant: nat, raw: Raw, i: nat) {
    !Torn(s, tenant, raw) &&
    (FirstByKey(s, raw, i) || (FirstById(s, tenant, raw, i) && forall j: nat :: !FirstByKey(s, raw, j)))
  }

  lemma LookupTells(s: Store, tenant: nat, raw: Raw)
    ensures LookupPair(s, tenant, raw).Conflict? <==> Torn(s, tenant, raw)
    ensures forall i: nat :: LookupPair(s, tenant, raw) == Found(i) <==> LeadsTo(s, tenant, raw, i)
  {
    var byKey := FindByKey(s, raw.key);
    var byId := FindById(s, tenant, ProviderOf(raw), CanonicalId(raw));
    forall i: nat ensures FirstByKey(s, raw, i) <==> byKey == Some(i) {
      if FirstByKey(s, raw, i) && byKey.Some? { assert !(byKey.value < i) && !(i < byKey.value); }
    }
    forall i: nat ensures FirstById(s, tenant, raw, i) <==> byId == Some(i) {
      if FirstById(s, tenant, raw, i) && byId.Some? { assert !(byId.value < i) && !(i < byId.value); }
    }
  }

  // ---------------------------------------------------------------- what one member shows

  /** A member that leads to two sources, or to one of another tenant or conversation. */
  ghost predicate MemberShows(s: Store, reservation: Reservation, raw: Raw, a: Anomaly)
    requires Linked(s)
  {
    match a
    case IdentityConflict(pk, key) => pk == reservation.pk && key == raw.key && Torn(s, reservation.tenant, raw)
    case TenantMismatch(pk, i) =>
      pk == reservation.pk && LeadsTo(s, reservation.tenant, raw, i) &&
      (s.sources[i].tenant != reservation.tenant || s.messages[s.sources[i].message].tenant != reservation.tenant)
    case ConversationMismatch(pk, i, c) =>
      pk == reservation.pk && LeadsTo(s, reservation.tenant, raw, i) &&
      c == s.messages[s.sources[i].message].conversation && s.conversations[c].reservation.pk != reservation.pk
    case _ => false
  }

  lemma TallyMemberShows(s: Store, reservation: Reservation, t: Tally, raw: Raw, a: Anomaly)
    requires Linked(s)
    ensures a in TallyMember(s, reservation, t, raw).anomalies <==>
            a in t.anomalies || MemberShows(s, reservation, raw, a)
  {
    LookupTells(s, reservation.tenant, raw);
  }

  ghost predicate SomeMemberShows(s: Store, reservation: Reservation, members: seq<Raw>, a: Anomaly)
    requires Linked(s)
  {
    exists k :: 0 <= k < |members| && MemberShows(s, reservation, members[k], a)
  }

  lemma SomeMemberShowsMore(s: Store, reservation: Reservation, front: seq<Raw>, last: Raw, a: Anomaly)
    requires Linked(s)
    ensures SomeMemberShows(s, reservation, front + [last], a) <==>
            SomeMemberShows(s, reservation, front, a) || MemberShows(s, reservation, last, a)
  {
    var all := front + [last];
    assert all[|front|] == last;
    if SomeMemberShows(s, reservation, front, a) {
      var k :| 0 <= k < |front| && MemberShows(s, reservation, front[k], a);
      assert all[k] == front[k];
    }
  }

  lemma {:induction false} TallyShows(s: Store, reservation: Reservation, members: seq<Raw>, a: Anomaly)
    requires Linked(s)
    ensures a in TallyMembers(s, reservation, members).anomalies <==> SomeMemberShows(s, reservation, members, a)
    decreases |members|
  {
    if members != [] {
      var front, last := SplitLast(members);
      TallyShows(s, reservation, front, a);
      TallyOfMore(s, reservation, front, last);
      TallyMemberShows(s, reservation, TallyMembers(s, reservation, front), last, a);
      SomeMemberShowsMore(s, reservation, front, last, a);
    }
  }

  // ---------------------------------------------------------------- what one group shows

  /** The first member that leads anywhere leads to a source on message m. */
  ghost predicate FirstFoundOn(s: Store, tenant: nat, members: seq<Raw>, m: nat) {
    exists k :: 0 <= k < |members| && FoundOn(s, tenant, members[k], m) &&
      forall j :: 0 <= j < k ==> !LookupPair(s, tenant, members[j]).Found?
  }

  ghost predicate FoundAs(s: Store, tenant: nat, members: seq<Raw>, m: nat, visible: bool) {
    m < |s.messages| && SomeFoundOn(s, tenant, members, m) && s.messages[m].visible == visible
  }

  ghost predicate SomeFoundAs(s: Store, tenant: nat, members: seq<Raw>, visible: bool) {
    exists m: nat :: FoundAs(s, tenant, members, m, visible)
  }

  ghost predicate AllFound(s: Store, tenant: nat, members: seq<Raw>, ms: set<nat>) {
    forall m: nat :: m in ms <==> SomeFoundOn(s, tenant, members, m)
  }

  ghost predicate AllShown(s: Store, tenant: nat, members: seq<Raw>, ms: set<nat>) {
    forall m: nat :: m in ms <==> FoundAs(s, tenant, members, m, true)
  }

  /** All the messages on which members are found, some shown and some hidden; or all the shown ones, if several. */
  ghost predicate SplitShown(s: Store, tenant: nat, members: seq<Raw>, ms: set<nat>) {
    (SomeFoundAs(s, tenant, members, true) && SomeFoundAs(s, tenant, members, false) &&
     AllFound(s, tenant, members, ms)) ||
    (|ms| > 1 && AllShown(s, tenant, members, ms))
  }

  /** Members found on hidden messages only, on hidden and shown ones, or on several shown ones. */
  ghost predicate GroupShows(s: Store, reservation: Reservation, members: seq<Raw>, a: Anomaly)
    requires Linked(s)
  {
    var tenant := reservation.tenant;
    match a
    case MessageInvisible(pk, m) =>
      pk == reservation.pk && FirstFoundOn(s, tenant, members, m) && !SomeFoundAs(s, tenant, members, true)
    case SplitCanonical(pk, ms) => pk == reservation.pk && SplitShown(s, tenant, members, ms)
    case _ => SomeMemberShows(s, reservation, members, a)
  }

  ghost predicate StartsWithFirst(s: Store, tenant: nat, members: seq<Raw>, ids: seq<nat>) {
    if ids == [] then forall k :: 0 <= k < |members| ==> !LookupPair(s, tenant, members[k]).Found?
    else FirstFoundOn(s, tenant, members, ids[0])
  }

  lemma FirstFoundStays(s: Store, tenant: nat, front: seq<Raw>, last: Raw, m: nat)
    requires FirstFoundOn(s, tenant, front, m)
    ensures FirstFoundOn(s, tenant, front + [last], m)
  {
    var all := front + [last];
    var k :| 0 <= k < |front| && FoundOn(s, tenant, front[k], m) &&
             forall j :: 0 <= j < k ==> !LookupPair(s, tenant, front[j]).Found?;
    assert forall j :: 0 <= j <= k ==> all[j] == front[j];
  }

  lemma FirstFoundLast(s: Store, tenant: nat, front: seq<Raw>, last: Raw, m: nat)
    requires forall k :: 0 <= k < |front| ==> !LookupPair(s, tenant, front[k]).Found?
    requires FoundOn(s, tenant, last, m)
    ensures FirstFoundOn(s, tenant, front + [last], m)
  {
    var all := front + [last];
    assert forall j :: 0 <= j < |front| ==> all[j] == front[j];
    assert FoundOn(s, tenant, all[|front|], m);
  }

  lemma FirstFoundMore(s: Store, reservation: Reservation, front: seq<Raw>, last: Raw, t: Tally)
    requires Linked(s) && StartsWithFirst(s, reservation.tenant, front, t.ids)
    ensures StartsWithFirst(s, reservation.tenant, front + [last], TallyMember(s, reservation, t, last).ids)
  {
    var tenant := reservation.tenant;
    var found := LookupPair(s, tenant, last);
    if t.ids != [] {
      FirstFoundStays(s, tenant, front, last, t.ids[0]);
    } else if found.Found? {
      FirstFoundLast(s, tenant, front, last, s.sources[found.source].message);
    }
  }

  lemma {:induction false} FirstIsFirst(s: Store, reservation: Reservation, members: seq<Raw>)
    requires Linked(s)
    ensures StartsWithFirst(s, reservation.tenant, members, TallyMembers(s, reservation, members).ids)
    decreases |members|
  {
    if members != [] {
      var front, last := SplitLast(members);
      FirstIsFirst(s, reservation, front);
      TallyOfMore(s, reservation, front, last);
      FirstFoundMore(s, reservation, front, last, TallyMembers(s, reservation, front));
    }
  }

  lemma FirstFoundIsOne(s: Store, tenant: nat, members: seq<Raw>, m: nat, n: nat)
    requires FirstFoundOn(s, tenant, members, m) && FirstFoundOn(s, tenant, members, n)
    ensures m == n
  {
  }

  lemma {:induction false} AllKept(s: Store, ids: seq<nat>, visible: bool)
    requires forall k :: 0 <= k < |ids| ==> ids[k] < |s.messages| && s.messages[ids[k]].visible == visible
    ensures WithVisibility(s, ids, visible) == ids
  {
    if ids != [] {
      AllKept(s, ids[..|ids| - 1], visible);
      assert ids == ids[..|ids| - 1] + [ids[|ids| - 1]];
    }
  }

  /** The ids are the messages on which members are found, in the order in which they are. */
  ghost predicate IdsOf(s: Store, tenant: nat, members: seq<Raw>, ids: seq<nat>) {
    NoneTwice(ids) && (forall k :: 0 <= k < |ids| ==> ids[k] < |s.messages|) &&
    StartsWithFirst(s, tenant, members, ids) && forall m: nat :: m in ids <==> SomeFoundOn(s, tenant, members, m)
  }

  lemma FoundAsIff(s: Store, tenant: nat, members: seq<Raw>, ids: seq<nat>, visible: bool)
    requires IdsOf(s, tenant, members, ids)
    ensures SomeFoundAs(s, tenant, members, visible) <==> WithVisibility(s, ids, visible) != []
    ensures forall m: nat :: m in WithVisibility(s, ids, visible) <==> FoundAs(s, tenant, members, m, visible)
  {
    var kept := WithVisibility(s, ids, visible);
    forall m: nat ensures m in kept <==> FoundAs(s, tenant, members, m, visible) {
      if m in ids {
        var k :| 0 <= k < |ids| && ids[k] == m;
      }
    }
    if kept != [] { assert kept[0] in kept; }
  }

  lemma VisibilityLists(reservation: Reservation, ids: seq<nat>, visible: seq<nat>, hidden: seq<nat>, a: Anomaly)
    ensures a in VisibilityAnomalies(reservation, ids, visible, hidden) <==>
            match a
            case MessageInvisible(pk, m) =>
              pk == reservation.pk && hidden != [] && visible == [] && m == hidden[0]
            case SplitCanonical(pk, ms) =>
              pk == reservation.pk && ((hidden != [] && visible != [] && IsSetOf(ms, ids)) ||
                                       (|visible| > 1 && IsSetOf(ms, visible)))
            case _ => false
  {
    var all, shown := set m | m in ids, set m | m in visible;
    var one := if hidden != [] && visible == [] then [MessageInvisible(reservation.pk, hidden[0])]
               else if hidden != [] then [SplitCanonical(reservation.pk, all)] else [];
    var two := if |visible| > 1 then [SplitCanonical(reservation.pk, shown)] else [];
    assert VisibilityAnomalies(reservation, ids, visible, hidden) == one + two;
    assert forall ms: set<nat> :: ms == all <==> IsSetOf(ms, ids);
    assert forall ms: set<nat> :: ms == shown <==> IsSetOf(ms, visible);
  }

  ghost predicate IsSetOf(ms: set<nat>, ids: seq<nat>) {
    forall m: nat :: m in ms <==> m in ids
  }

  lemma {:induction false} SizeOfIds(ids: seq<nat>, ms: set<nat>)
    requires NoneTwice(ids) && IsSetOf(ms, ids)
    ensures |ms| == |ids|
    decreases |ids|
  {
    if ids == [] {
      assert ms == {};
    } else {
      var front, last := SplitLast(ids);
      assert forall i :: 0 <= i < |front| ==> ids[i] == front[i] && ids[i] != ids[|front|];
      SizeOfIds(front, ms - {last});
      assert ms == (ms - {last}) + {last};
    }
  }

  lemma InvisibleTells(s: Store, reservation: Reservation, members: seq<Raw>, ids: seq<nat>, m: nat)
    requires Linked(s) && IdsOf(s, reservation.tenant, members, ids)
    ensures var visible, hidden := WithVisibility(s, ids, true), WithVisibility(s, ids, false);
            (hidden != [] && visible == [] && m == hidden[0]) <==>
            (FirstFoundOn(s, reservation.tenant, members, m) && !SomeFoundAs(s, reservation.tenant, members, true))
  {
    var visible, hidden := WithVisibility(s, ids, true), WithVisibility(s, ids, false);
    FoundAsIff(s, reservation.tenant, members, ids, true);
    if visible == [] {
      forall k | 0 <= k < |ids| ensures !s.messages[ids[k]].visible { assert ids[k] in ids && ids[k] !in visible; }
      AllKept(s, ids, false);
      if ids != [] && FirstFoundOn(s, reservation.tenant, members, m) {
        FirstFoundIsOne(s, reservation.tenant, members, m, ids[0]);
      }
    }
  }

  lemma SetsTell(s: Store, tenant: nat, members: seq<Raw>, ids: seq<nat>, ms: set<nat>)
    requires IdsOf(s, tenant, members, ids)
    ensures AllFound(s, tenant, members, ms) <==> IsSetOf(ms, ids)
    ensures AllShown(s, tenant, members, ms) <==> IsSetOf(ms, WithVisibility(s, ids, true))
    ensures IsSetOf(ms, WithVisibility(s, ids, true)) ==> |ms| == |WithVisibility(s, ids, true)|
  {
    var visible := WithVisibility(s, ids, true);
    FoundAsIff(s, tenant, members, ids, true);
    VisibilityKeepsNoneTwice(s, ids, true);
    if IsSetOf(ms, visible) { SizeOfIds(visible, ms); }
  }

  lemma SplitTells(s: Store, reservation: Reservation, members: seq<Raw>, ids: seq<nat>, ms: set<nat>)
    requires Linked(s) && IdsOf(s, reservation.tenant, members, ids)
    ensures var visible, hidden := WithVisibility(s, ids, true), WithVisibility(s, ids, false);
            ((hidden != [] && visible != [] && IsSetOf(ms, ids)) || (|visible| > 1 && IsSetOf(ms, visible))) <==>
            SplitShown(s, reservation.tenant, members, ms)
  {
    FoundAsIff(s, reservation.tenant, members, ids, true);
    FoundAsIff(s, reservation.tenant, members, ids, false);
    SetsTell(s, reservation.tenant, members, ids, ms);
  }

  /** Resolving a group reports an anomaly exactly when its members show it. */
  lemma ResolveTells(s: Store, reservation: Reservation, g: Group, a: Anomaly)
    requires Linked(s)
    ensures a in ResolveGroup(s, reservation, g).anomalies <==> GroupShows(s, reservation, g.members, a)
  {
    var t := TallyMembers(s, reservation, g.members);
    TallyTallies(s, reservation, g.members);
    FirstIsFirst(s, reservation, g.members);
    TallyShows(s, reservation, g.members, a);
    VisibilityLists(reservation, t.ids, WithVisibility(s, t.ids, true), WithVisibility(s, t.ids, false), a);
    if a.MessageInvisible? {
      NoMemberShows(s, reservation, g.members, a);
      InvisibleTells(s, reservation, g.members, t.ids, a.message);
    } else if a.SplitCanonical? {
      NoMemberShows(s, reservation, g.members, a);
      SplitTells(s, reservation, g.members, t.ids, a.messages);
    }
  }

  lemma NoMemberShows(s: Store, reservation: Reservation, members: seq<Raw>, a: Anomaly)
    requires Linked(s) && (a.MessageInvisible? || a.SplitCanonical?)
    ensures !SomeMemberShows(s, reservation, members, a)
  {
  }

  // ---------------------------------------------------------------- what one reservation shows

  /** The key stands twice among the members of the groups. */
  ghost predicate Repeated(groups: seq<Group>, key: RawKey) {
    exists k, j :: RepeatedAt(groups, k, j, key)
  }

  /** The key is that of member j of group k, and it stands before that. */
  ghost predicate RepeatedAt(groups: seq<Group>, k: int, j: int, key: RawKey) {
    KeyAt(groups, k, j, key) && Met(groups, k, j, key)
  }

  /** Members of two groups are found on the message. */
  ghost predicate Shared(s: Store, w: Work, m: nat) {
    exists a, b :: 0 <= a < b < |w.groups| && FoundIn(s, w, a, m) && FoundIn(s, w, b, m)
  }

  ghost predicate FoundIn(s: Store, w: Work, k: int, m: nat) {
    0 <= k < |w.groups| && SomeFoundOn(s, w.reservation.tenant, w.groups[k].members, m)
  }

  /** The group's sources are its own, on one shown message that no other group's members are found on. */
  ghost predicate OpenGroup(s: Store, w: Work, k: int)
    requires Linked(s)
  {
    0 <= k < |w.groups| && AllOwn(s, w.reservation, w.groups[k].members) &&
    OnOneShown(s, w.reservation.tenant, w.groups[k].members) &&
    forall m: nat :: FoundIn(s, w, k, m) ==> !Shared(s, w, m)
  }

  ghost predicate Lacks(s: Store, w: Work, k: int, n: nat)
    requires Linked(s)
  {
    OpenGroup(s, w, k) && n > 0 && Unfound(s, w.reservation.tenant, w.groups[k].members) == n
  }

  ghost predicate SomeGroupShows(s: Store, w: Work, a: Anomaly)
    requires Linked(s)
  {
    exists k :: 0 <= k < |w.groups| && GroupShows(s, w.reservation, w.groups[k].members, a)
  }

  /** What is to be reported of one reservation when nothing is written. */
  ghost predicate Observed(mode: Mode, s: Store, w: Work, a: Anomaly)
    requires Linked(s)
  {
    match a
    case DuplicateMember(pk, key) => pk == w.reservation.pk && Repeated(w.groups, key)
    case CrossGroup(pk, m) => pk == w.reservation.pk && Shared(s, w, m)
    case MissingSource(pk, n) => mode == ValidateOnly && pk == w.reservation.pk && exists k :: Lacks(s, w, k, n)
    case _ => SomeGroupShows(s, w, a)
  }

  lemma {:induction false} DuplicatesTell(reservation: Reservation, groups: seq<Group>, k: nat, n: nat, a: Anomaly)
    requires k < |groups| && n <= |groups[k].members|
    ensures a in DuplicateAnomalies(reservation, groups, k, n) <==>
            a.DuplicateMember? && a.reservation == reservation.pk &&
            exists j :: 0 <= j < n && RepeatedAt(groups, k, j, a.key)
  {
    if n > 0 {
      DuplicatesTell(reservation, groups, k, n - 1, a);
      MetIsSeenBefore(groups, k, n - 1);
      if a.DuplicateMember? {
        assert RepeatedAt(groups, k, n - 1, a.key) <==>
               groups[k].members[n - 1].key == a.key && SeenBefore(groups, k, n - 1);
      }
    }
  }

  ghost predicate ReportedOf(w: Work, rs: seq<Resolution>, k: int, a: Anomaly) {
    0 <= k < |w.groups| && k < |rs| &&
    (a in DuplicateAnomalies(w.reservation, w.groups, k, |w.groups[k].members|) || a in rs[k].anomalies)
  }

  lemma {:induction false} ResolvingTells(w: Work, rs: seq<Resolution>, n: nat, a: Anomaly)
    requires n <= |w.groups| && n <= |rs|
    ensures a in ResolveAnomalies(w, rs, n) <==> exists k :: 0 <= k < n && ReportedOf(w, rs, k, a)
  {
    if n > 0 {
      ResolvingTells(w, rs, n - 1, a);
      assert a in ResolveAnomalies(w, rs, n) <==> a in ResolveAnomalies(w, rs, n - 1) || ReportedOf(w, rs, n - 1, a);
    }
  }

  lemma {:induction false} CrossingTells(reservation: Reservation, rs: seq<Resolution>, n: nat, a: Anomaly)
    ensures a in CrossAnomalies(reservation, rs, n) <==>
            a.CrossGroup? && a.reservation == reservation.pk && a.message < n && IsCross(rs, a.message)
  {
    if n > 0 { CrossingTells(reservation, rs, n - 1, a); }
  }

  lemma ReachesIffFound(s: Store, w: Work, k: int, m: nat)
    requires Linked(s)
    ensures Reaches(Resolutions(s, w), k, m) <==> FoundIn(s, w, k, m)
  {
    if 0 <= k < |w.groups| { TallyTallies(s, w.reservation, w.groups[k].members); }
  }

  lemma CrossIffShared(s: Store, w: Work, m: nat)
    requires Linked(s)
    ensures IsCross(Resolutions(s, w), m) <==> Shared(s, w, m)
  {
    forall k ensures Reaches(Resolutions(s, w), k, m) <==> FoundIn(s, w, k, m) { ReachesIffFound(s, w, k, m); }
  }

  /** A group is handled exactly when it is open. */
  lemma OpenIffUnblocked(s: Store, w: Work, k: nat)
    requires Linked(s) && k < |w.groups|
    ensures OpenGroup(s, w, k) <==> !Blocked(Resolutions(s, w), k)
  {
    var rs := Resolutions(s, w);
    UnblockedIff(s, w.reservation, w.groups[k]);
    forall m: nat ensures IsCross(rs, m) <==> Shared(s, w, m) { CrossIffShared(s, w, m); }
    forall m: nat ensures m in rs[k].messageIds <==> FoundIn(s, w, k, m) { ReachesIffFound(s, w, k, m); }
  }

  // ---------------------------------------------------------------- the loop over the open groups

  /** Handling group j leaves the store alone and adds the anomaly to the report exactly when it shows it. */
  ghost predicate TellsAt(f: Handler, s: Store, w: Work, rs: seq<Resolution>, shows: int -> bool, a: Anomaly,
                          j: nat, p: Progress)
    requires j < |w.groups| == |rs|
  {
    p.store == s ==>
      var p' := f(p, Todo(j, w.groups[j], rs[j]));
      p'.store == s && (a in p'.report.blocking <==> a in p.report.blocking || shows(j))
  }

  ghost predicate Tells(f: Handler, s: Store, w: Work, rs: seq<Resolution>, shows: int -> bool, a: Anomaly)
    requires |w.groups| == |rs|
  {
    forall j: nat, p {:trigger TellsAt(f, s, w, rs, shows, a, j, p)} ::
      j < |rs| && !Blocked(rs, j) ==> TellsAt(f, s, w, rs, shows, a, j, p)
  }

  lemma {:induction false} LoopTells(f: Handler, s: Store, w: Work, rs: seq<Resolution>, shows: int -> bool,
                                     a: Anomaly, report: Report, k: nat)
    requires k <= |w.groups| == |rs| && Tells(f, s, w, rs, shows, a)
    ensures var p := AfterGroups(f, Progress(s, report), w, rs, k);
            p.store == s &&
            (a in p.report.blocking <==>
             a in report.blocking || exists j :: 0 <= j < k && shows(j) && !Blocked(rs, j))
  {
    if k > 0 {
      var j := k - 1;
      LoopTells(f, s, w, rs, shows, a, report, j);
      var before := AfterGroups(f, Progress(s, report), w, rs, j);
      if !Blocked(rs, j) { assert TellsAt(f, s, w, rs, shows, a, j, before); }
    }
  }

  /** The loop of the specification is the loop over the groups. */
  lemma HandlingIsLoop(mode: Mode, now: int, s: Store, w: Work, report: Report) returns (f: Handler)
    requires Linked(s)
    ensures IsHandle(f, mode, now, s, w.reservation) && Fit(s, Unblocked(w, Resolutions(s, w), |w.groups|))
    ensures HandleAll(mode, now, s, w.reservation, Unblocked(w, Resolutions(s, w), |w.groups|), report) ==
            AfterGroups(f, Progress(s, report), w, Resolutions(s, w), |w.groups|)
  {
    var rs := Resolutions(s, w);
    f := TheHandler(mode, now, s, w.reservation);
    ResolvedBelow(s, w);
    UnblockedFit(s, w, rs, |rs|);
    GroupsAreTodos(f, Progress(s, report), w, rs, |rs|);
    AfterTodosIsHandleAll(f, mode, now, s, w.reservation, Unblocked(w, rs, |rs|), report);
  }

  /** How many rows of an open group have no source, and whether it has a message. */
  lemma OpenGroupTells(s: Store, w: Work, k: nat)
    requires Linked(s) && OpenGroup(s, w, k)
    ensures var r := Resolutions(s, w)[k];
            |r.missing| == Unfound(s, w.reservation.tenant, w.groups[k].members) &&
            (r.visible.Some? <==> exists m: nat :: FoundIn(s, w, k, m))
  {
    var r := Resolutions(s, w)[k];
    UnblockedIff(s, w.reservation, w.groups[k]);
    UnblockedGroup(s, w.reservation, w.groups[k]);
    forall m: nat ensures r.visible == Some(m) <==> FoundIn(s, w, k, m) {
      UnblockedShows(s, w.reservation, w.groups[k], m);
    }
  }

  ghost predicate MissingShown(mode: Mode, w: Work, rs: seq<Resolution>, a: Anomaly, j: int) {
    mode == ValidateOnly && 0 <= j < |rs| && rs[j].missing != [] &&
    a == MissingSource(w.reservation.pk, |rs[j].missing|)
  }

  ghost function MissingLaw(mode: Mode, w: Work, rs: seq<Resolution>, a: Anomaly): int -> bool {
    (j: int) => MissingShown(mode, w, rs, a, j)
  }

  lemma InspectTells(f: Handler, mode: Mode, now: int, s: Store, w: Work, rs: seq<Resolution>, a: Anomaly)
    requires mode != Apply && |rs| == |w.groups| && VisibleBelow(rs, |s.messages|)
    requires IsHandle(f, mode, now, s, w.reservation)
    ensures Tells(f, s, w, rs, MissingLaw(mode, w, rs, a), a)
  {
    var law := MissingLaw(mode, w, rs, a);
    forall j: nat, p {:trigger TellsAt(f, s, w, rs, law, a, j, p)} | j < |rs|
      ensures TellsAt(f, s, w, rs, law, a, j, p)
    {
      assert HandlesAt(f, mode, now, s, w.reservation, p, Todo(j, w.groups[j], rs[j]));
    }
  }

  lemma MissingIffLacks(mode: Mode, s: Store, w: Work, a: Anomaly, j: nat)
    requires Linked(s) && j < |w.groups|
    ensures MissingShown(mode, w, Resolutions(s, w), a, j) && !Blocked(Resolutions(s, w), j) <==>
            mode == ValidateOnly && a.MissingSource? && a.reservation == w.reservation.pk && Lacks(s, w, j, a.missing)
  {
    OpenIffUnblocked(s, w, j);
    if OpenGroup(s, w, j) { OpenGroupTells(s, w, j); }
  }

  /** Some group that is handled has rows without a source. */
  ghost predicate SomeMissing(mode: Mode, w: Work, rs: seq<Resolution>, a: Anomaly) {
    exists j :: 0 <= j < |rs| && MissingShown(mode, w, rs, a, j) && !Blocked(rs, j)
  }

  lemma SomeMissingIff(mode: Mode, s: Store, w: Work, a: Anomaly)
    requires Linked(s)
    ensures SomeMissing(mode, w, Resolutions(s, w), a) <==> a.MissingSource? && Observed(mode, s, w, a)
  {
    var rs := Resolutions(s, w);
    forall j | 0 <= j < |rs|
      ensures MissingShown(mode, w, rs, a, j) && !Blocked(rs, j) <==>
              mode == ValidateOnly && a.MissingSource? && a.reservation == w.reservation.pk && Lacks(s, w, j, a.missing)
    {
      MissingIffLacks(mode, s, w, a, j);
    }
  }

  lemma HandlingTells(mode: Mode, now: int, s: Store, w: Work, report: Report, a: Anomaly)
    requires Linked(s) && mode != Apply
    ensures Fit(s, Unblocked(w, Resolutions(s, w), |w.groups|))
    ensures a in HandleAll(mode, now, s, w.reservation, Unblocked(w, Resolutions(s, w), |w.groups|), report)
                 .report.blocking <==>
            a in report.blocking || SomeMissing(mode, w, Resolutions(s, w), a)
  {
    var rs := Resolutions(s, w);
    var f := HandlingIsLoop(mode, now, s, w, report);
    ResolvedBelow(s, w);
    InspectTells(f, mode, now, s, w, rs, a);
    LoopTells(f, s, w, rs, MissingLaw(mode, w, rs, a), a, report, |rs|);
    MissingIsLaw(mode, w, rs, a);
  }

  lemma MissingIsLaw(mode: Mode, w: Work, rs: seq<Resolution>, a: Anomaly)
    ensures SomeMissing(mode, w, rs, a) <==>
            exists j :: 0 <= j < |rs| && MissingLaw(mode, w, rs, a)(j) && !Blocked(rs, j)
  {
    forall j | 0 <= j < |rs| ensures MissingShown(mode, w, rs, a, j) <==> MissingLaw(mode, w, rs, a)(j) { }
  }

  /** The key of some member of group k stands before it. */
  ghost predicate GroupRepeats(w: Work, k: int, a: Anomaly) {
    a.DuplicateMember? && a.reservation == w.reservation.pk && exists j :: RepeatedAt(w.groups, k, j, a.key)
  }

  lemma GroupReports(s: Store, w: Work, k: nat, a: Anomaly)
    requires Linked(s) && k < |w.groups|
    ensures ReportedOf(w, Resolutions(s, w), k, a) <==>
            GroupRepeats(w, k, a) || GroupShows(s, w.reservation, w.groups[k].members, a)
  {
    DuplicatesTell(w.reservation, w.groups, k, |w.groups[k].members|, a);
    ResolveTells(s, w.reservation, w.groups[k], a);
  }

  /** Members show neither repeated keys nor shared messages nor missing sources. */
  lemma OnlySomeShow(s: Store, reservation: Reservation, members: seq<Raw>, a: Anomaly)
    requires Linked(s) && (a.DuplicateMember? || a.CrossGroup? || a.MissingSource?)
    ensures !GroupShows(s, reservation, members, a)
  {
  }

  /** The groups show what is reported of repeated keys and of their members. */
  ghost predicate GroupsShow(s: Store, w: Work, a: Anomaly)
    requires Linked(s)
  {
    exists k :: 0 <= k < |w.groups| && (GroupRepeats(w, k, a) || GroupShows(s, w.reservation, w.groups[k].members, a))
  }

  lemma ResolvingIsShown(s: Store, w: Work, a: Anomaly)
    requires Linked(s)
    ensures a in ResolveAnomalies(w, Resolutions(s, w), |w.groups|) <==> GroupsShow(s, w, a)
  {
    ResolvingTells(w, Resolutions(s, w), |w.groups|, a);
    forall k | 0 <= k < |w.groups|
      ensures ReportedOf(w, Resolutions(s, w), k, a) <==>
              GroupRepeats(w, k, a) || GroupShows(s, w.reservation, w.groups[k].members, a)
    {
      GroupReports(s, w, k, a);
    }
  }

  lemma RepeatsIff(w: Work, a: Anomaly)
    requires a.DuplicateMember?
    ensures (exists k :: 0 <= k < |w.groups| && GroupRepeats(w, k, a)) <==>
            a.reservation == w.reservation.pk && Repeated(w.groups, a.key)
  {
    if a.reservation == w.reservation.pk && Repeated(w.groups, a.key) {
      var k, j :| RepeatedAt(w.groups, k, j, a.key);
      assert GroupRepeats(w, k, a);
    }
  }

  lemma ResolvingShows(s: Store, w: Work, a: Anomaly)
    requires Linked(s)
    ensures a in ResolveAnomalies(w, Resolutions(s, w), |w.groups|) <==>
            !a.CrossGroup? && !a.MissingSource? && Observed(ValidateOnly, s, w, a)
  {
    ResolvingIsShown(s, w, a);
    if a.DuplicateMember? || a.CrossGroup? || a.MissingSource? {
      forall k | 0 <= k < |w.groups| ensures !GroupShows(s, w.reservation, w.groups[k].members, a) {
        OnlySomeShow(s, w.reservation, w.groups[k].members, a);
      }
      if a.DuplicateMember? { RepeatsIff(w, a); }
    } else {
      forall k | 0 <= k < |w.groups| ensures !GroupRepeats(w, k, a) { }
    }
  }

  lemma CrossingShows(s: Store, w: Work, a: Anomaly)
    requires Linked(s)
    ensures a in CrossAnomalies(w.reservation, Resolutions(s, w), |s.messages|) <==>
            a.CrossGroup? && Observed(ValidateOnly, s, w, a)
  {
    var rs := Resolutions(s, w);
    CrossingTells(w.reservation, rs, |s.messages|, a);
    if a.CrossGroup? {
      CrossIffShared(s, w, a.message);
      if IsCross(rs, a.message) { CrossInTable(s, w, a.message); }
    }
  }

  lemma PhaseOneTells(s: Store, w: Work, report: Report, a: Anomaly)
    requires Linked(s)
    ensures a in AfterPhaseOne(w, Resolutions(s, w), |s.messages|, report).blocking <==>
            a in report.blocking || (!a.MissingSource? && Observed(ValidateOnly, s, w, a))
  {
    ResolvingShows(s, w, a);
    CrossingShows(s, w, a);
  }

  /** Processing a reservation without writing adds to the report exactly what is observed of it. */
  lemma ProcessTells(mode: Mode, now: int, s: Store, w: Work, report: Report, a: Anomaly)
    requires Linked(s) && mode != Apply
    ensures a in ProcessReservation(mode, now, s, w, report).report.blocking <==>
            a in report.blocking || Observed(mode, s, w, a)
  {
    HandlingTells(mode, now, s, w, AfterPhaseOne(w, Resolutions(s, w), |s.messages|, report), a);
    SomeMissingIff(mode, s, w, a);
    PhaseOneTells(s, w, report, a);
  }

  // ---------------------------------------------------------------- the whole scan

  ghost predicate Any<T>(xs: seq<T>, p: T -> bool) {
    exists i :: 0 <= i < |xs| && p(xs[i])
  }

  lemma AnyMore<T>(front: seq<T>, last: T, p: T -> bool)
    ensures Any(front + [last], p) <==> Any(front, p) || p(last)
  {
    var all := front + [last];
    assert all[|front|] == last;
    if Any(front, p) {
      var i :| 0 <= i < |front| && p(front[i]);
      assert all[i] == front[i];
    }
  }

  ghost function ObservedLaw(mode: Mode, s: Store, a: Anomaly): Work -> bool
    requires Linked(s)
  {
    (w: Work) => Observed(mode, s, w, a)
  }

  lemma ScanNext(mode: Mode, now: int, s: Store, front: seq<Work>, last: Work)
    requires Linked(s) && mode != Apply
    ensures Scan(mode, now, s, front + [last]) ==
            ProcessReservation(mode, now, s, last, Scan(mode, now, s, front).report)
  {
    assert (front + [last])[..|front|] == front;
    ScanGrows(mode, now, s, front, (r: Raw) => true);
  }

  /** A scan that writes nothing reports an anomaly exactly when it is observed of some reservation. */
  lemma {:induction false} ScanTells(mode: Mode, now: int, s: Store, works: seq<Work>, a: Anomaly)
    requires Linked(s) && mode != Apply
    ensures a in Scan(mode, now, s, works).report.blocking <==> Any(works, ObservedLaw(mode, s, a))
    decreases |works|
  {
    if works != [] {
      var front, last := SplitLast(works);
      ScanTells(mode, now, s, front, a);
      ScanNext(mode, now, s, front, last);
      ProcessTells(mode, now, s, last, Scan(mode, now, s, front).report, a);
      AnyMore(front, last, ObservedLaw(mode, s, a));
    }
  }

  /** Nothing is wrong with the reservation: no key stands twice, every source found is its own, each group's
      are on one shown message which no other group has, and no row is without a source. */
  ghost predicate CleanWork(s: Store, w: Work)
    requires Linked(s)
  {
    (forall key :: !Repeated(w.groups, key)) &&
    (forall k :: 0 <= k < |w.groups| ==> CleanGroup(s, w.reservation, w.groups[k].members)) &&
    forall m: nat :: !Shared(s, w, m)
  }

  ghost predicate CleanGroup(s: Store, reservation: Reservation, members: seq<Raw>)
    requires Linked(s)
  {
    AllOwn(s, reservation, members) && OnOneShown(s, reservation.tenant, members) &&
    forall k :: 0 <= k < |members| ==> Clashes(s, reservation.tenant, members[k])
  }

  /** Members of which none leads to two sources and each has one are all found, and the other way round. */
  lemma AllFoundIff(s: Store, reservation: Reservation, members: seq<Raw>)
    requires Linked(s) && AllOwn(s, reservation, members)
    ensures Unfound(s, reservation.tenant, members) == 0 <==>
            forall k :: 0 <= k < |members| ==> Clashes(s, reservation.tenant, members[k])
  {
    UnfoundIsNone(s, reservation.tenant, members);
    forall k | 0 <= k < |members|
      ensures UnfoundLaw(s, reservation.tenant)(members[k]) <==> !Clashes(s, reservation.tenant, members[k])
    {
      assert OwnSource(s, reservation, members[k]);
    }
  }

  ghost function UnfoundLaw(s: Store, tenant: nat): Raw -> bool {
    (raw: Raw) => !LookupPair(s, tenant, raw).Found?
  }

  lemma UnfoundNext(s: Store, tenant: nat, front: seq<Raw>, last: Raw)
    ensures Unfound(s, tenant, front + [last]) == 0 <==>
            Unfound(s, tenant, front) == 0 && !UnfoundLaw(s, tenant)(last)
  {
    assert (front + [last])[..|front|] == front;
  }

  lemma {:induction false} UnfoundIsNone(s: Store, tenant: nat, members: seq<Raw>)
    ensures Unfound(s, tenant, members) == 0 <==> !Any(members, UnfoundLaw(s, tenant))
    decreases |members|
  {
    if members != [] {
      var front, last := SplitLast(members);
      UnfoundIsNone(s, tenant, front);
      UnfoundNext(s, tenant, front, last);
      AnyMore(front, last, UnfoundLaw(s, tenant));
    }
  }

  /** What members of a group show is nothing exactly when their sources are their own and on one shown message. */
  lemma GroupIsQuiet(s: Store, reservation: Reservation, g: Group)
    requires Linked(s)
    ensures (forall a :: !GroupShows(s, reservation, g.members, a)) <==>
            AllOwn(s, reservation, g.members) && OnOneShown(s, reservation.tenant, g.members)
  {
    UnblockedIff(s, reservation, g);
    var found := ResolveGroup(s, reservation, g).anomalies;
    forall a ensures a in found <==> GroupShows(s, reservation, g.members, a) { ResolveTells(s, reservation, g, a); }
    if found != [] { assert found[0] in found; }
  }

  ghost predicate Silent(s: Store, w: Work)
    requires Linked(s)
  {
    forall a :: !Observed(ValidateOnly, s, w, a)
  }

  lemma CleanIsSilent(s: Store, w: Work)
    requires Linked(s) && CleanWork(s, w)
    ensures Silent(s, w)
  {
    forall a ensures !Observed(ValidateOnly, s, w, a) {
      forall k | 0 <= k < |w.groups| ensures !GroupShows(s, w.reservation, w.groups[k].members, a) {
        assert CleanGroup(s, w.reservation, w.groups[k].members);
        GroupIsQuiet(s, w.reservation, w.groups[k]);
      }
      forall k, n: nat ensures !Lacks(s, w, k, n) {
        if 0 <= k < |w.groups| {
          assert CleanGroup(s, w.reservation, w.groups[k].members);
          AllFoundIff(s, w.reservation, w.groups[k].members);
        }
      }
    }
  }

  lemma SilentShowsNothing(s: Store, w: Work, k: nat, a: Anomaly)
    requires Linked(s) && Silent(s, w) && k < |w.groups|
    ensures !GroupShows(s, w.reservation, w.groups[k].members, a)
  {
    if a.DuplicateMember? || a.CrossGroup? || a.MissingSource? {
      OnlySomeShow(s, w.reservation, w.groups[k].members, a);
    } else {
      assert !Observed(ValidateOnly, s, w, a);
    }
  }

  lemma SilentIsClean(s: Store, w: Work)
    requires Linked(s) && Silent(s, w)
    ensures CleanWork(s, w)
  {
    var pk := w.reservation.pk;
    forall key ensures !Repeated(w.groups, key) { assert !Observed(ValidateOnly, s, w, DuplicateMember(pk, key)); }
    forall m: nat ensures !Shared(s, w, m) { assert !Observed(ValidateOnly, s, w, CrossGroup(pk, m)); }
    forall k | 0 <= k < |w.groups| ensures CleanGroup(s, w.reservation, w.groups[k].members) {
      forall a ensures !GroupShows(s, w.reservation, w.groups[k].members, a) { SilentShowsNothing(s, w, k, a); }
      GroupIsQuiet(s, w.reservation, w.groups[k]);
      AllFoundIff(s, w.reservation, w.groups[k].members);
      var n := Unfound(s, w.reservation.tenant, w.groups[k].members);
      assert !Observed(ValidateOnly, s, w, MissingSource(pk, n));
      assert !Lacks(s, w, k, n);
    }
  }

  /** A validation finds nothing exactly when nothing is wrong with any reservation. In particular a row that
      has no source is always found. */
  lemma ValidationIsCleanIff(now: int, s: Store, works: seq<Work>)
    requires Linked(s)
    ensures Scan(ValidateOnly, now, s, works).report.blocking == [] <==>
            forall i :: 0 <= i < |works| ==> CleanWork(s, works[i])
  {
    var found := Scan(ValidateOnly, now, s, works).report.blocking;
    if found == [] {
      forall i | 0 <= i < |works| ensures CleanWork(s, works[i]) {
        forall a ensures !Observed(ValidateOnly, s, works[i], a) {
          ScanTells(ValidateOnly, now, s, works, a);
          assert a !in found;
          assert !ObservedLaw(ValidateOnly, s, a)(works[i]);
        }
        SilentIsClean(s, works[i]);
      }
    } else {
      ScanTells(ValidateOnly, now, s, works, found[0]);
      var i :| 0 <= i < |works| && ObservedLaw(ValidateOnly, s, found[0])(works[i]);
      if CleanWork(s, works[i]) {
        CleanIsSilent(s, works[i]);
      }
    }
  }
}
