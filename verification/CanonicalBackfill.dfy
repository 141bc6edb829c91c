/** Moving history onto the canonical store: dry run, validation and application of timeline groups. */
module CanonicalBackfill {
  import opened Wrappers
  import opened CanonicalModel
  import opened CanonicalStore

  /** A merged timeline entry: its raw rows and what the merged display item says. */
  datatype Group = Group(members: seq<Raw>, direction: Option<Direction>, channel: Option<Channel>,
                         body: string, occurredAt: Option<int>)

  datatype Work = Work(reservation: Reservation, groups: seq<Group>)

  datatype Mode = DryRun | ValidateOnly | Apply

  datatype Anomaly =
    | DuplicateMember(reservation: nat, key: RawKey)
    | IdentityConflict(reservation: nat, key: RawKey)
    | TenantMismatch(reservation: nat, source: nat)
    | ConversationMismatch(reservation: nat, source: nat, conversation: nat)
    | MessageInvisible(reservation: nat, message: nat)
    | SplitCanonical(reservation: nat, messages: set<nat>)
    | CrossGroup(reservation: nat, message: nat)
    | MissingSource(reservation: nat, missing: nat)

  datatype Report = Report(scanned: nat, groups: nat, visibleInGroups: nat, sourcesInGroups: nat,
                           wouldCreateMessages: nat, wouldCreateSources: nat,
                           createdMessages: nat, createdSources: nat, healedSources: nat,
                           blocking: seq<Anomaly>)

  const NEW_REPORT := Report(0, 0, 0, 0, 0, 0, 0, 0, 0, [])

  // ---------------------------------------------------------------- resolving one group

  datatype Lookup = Conflict | Missing | Found(source: nat)

  /** The source of a raw row by foreign key and by provider id, and whether the two disagree. */
  function LookupPair(s: Store, tenant: nat, raw: Raw): (r: Lookup)
    ensures r.Found? ==> r.source < |s.sources| && Blocks(s.sources[r.source], tenant, raw)
    ensures r.Missing? <==> !Clashes(s, tenant, raw)
  {
    var byKey := FindByKey(s, raw.key);
    var byId := FindById(s, tenant, ProviderOf(raw), CanonicalId(raw));
    if byKey.Some? && byId.Some? && byKey != byId then Conflict
    else if byKey.Some? then Found(byKey.value)
    else if byId.Some? then Found(byId.value)
    else Missing
  }

  datatype Tally = Tally(ids: seq<nat>, missing: seq<Raw>, anomalies: seq<Anomaly>)

  function AddDistinct(ids: seq<nat>, m: nat): seq<nat> {
    if m in ids then ids else ids + [m]
  }

  function SourceAnomalies(s: Store, reservation: Reservation, i: nat): seq<Anomaly>
    requires i < |s.sources| && s.sources[i].message < |s.messages|
    requires s.messages[s.sources[i].message].conversation < |s.conversations|
  {
    var x := s.sources[i];
    var message := s.messages[x.message];
    (if message.tenant != reservation.tenant || x.tenant != reservation.tenant
    then [TenantMismatch(reservation.pk, i)] else []) +
    (if s.conversations[message.conversation].reservation.pk != reservation.pk
    then [ConversationMismatch(reservation.pk, i, message.conversation)] else [])
  }

  /** One round of the member loop of _resolve_group. */
  function TallyMember(s: Store, reservation: Reservation, t: Tally, raw: Raw): Tally
    requires Linked(s)
  {
    match LookupPair(s, reservation.tenant, raw)
    case Conflict => t.(anomalies := t.anomalies + [IdentityConflict(reservation.pk, raw.key)])
    case Missing => t.(missing := t.missing + [raw])
    case Found(i) =>
      t.(ids := AddDistinct(t.ids, s.sources[i].message), anomalies := t.anomalies + SourceAnomalies(s, reservation, i))
  }

  function TallyMembers(s: Store, reservation: Reservation, members: seq<Raw>): (t: Tally)
    requires Linked(s)
    ensures forall k :: 0 <= k < |t.ids| ==> t.ids[k] < |s.messages|
  {
    if members == [] then Tally([], [], [])
    else TallyMember(s, reservation, TallyMembers(s, reservation, members[..|members| - 1]), members[|members| - 1])
  }

  function WithVisibility(s: Store, ids: seq<nat>, visible: bool): (r: seq<nat>)
    requires forall k :: 0 <= k < |ids| ==> ids[k] < |s.messages|
    ensures forall k :: k in r <==> k in ids && s.messages[k].visible == visible
  {
    if ids == [] then []
    else
      var last := ids[|ids| - 1];
      assert ids == ids[..|ids| - 1] + [last];
      var rest := WithVisibility(s, ids[..|ids| - 1], visible);
      if s.messages[last].visible == visible then rest + [last] else rest
  }

  datatype Resolution = Resolution(messageIds: seq<nat>, missing: seq<Raw>, visible: Option<nat>,
                                   anomalies: seq<Anomaly>) {
    /** A group is blocked exactly when resolving it reported something. */
    predicate Blocking() { anomalies != [] }
  }

  function VisibilityAnomalies(reservation: Reservation, ids: seq<nat>, visible: seq<nat>,
                               hidden: seq<nat>): seq<Anomaly> {
    (if hidden != [] && visible == [] then [MessageInvisible(reservation.pk, hidden[0])]
    else if hidden != [] then [SplitCanonical(reservation.pk, set m | m in ids)]
    else []) +
    (if |visible| > 1 then [SplitCanonical(reservation.pk, set m | m in visible)] else [])
  }

  function ResolveGroup(s: Store, reservation: Reservation, g: Group): (r: Resolution)
    requires Linked(s)
    ensures r.visible.Some? ==> r.visible.value < |s.messages| && r.visible.value in r.messageIds
    ensures forall k :: 0 <= k < |r.messageIds| ==> r.messageIds[k] < |s.messages|
  {
    var t := TallyMembers(s, reservation, g.members);
    var visible := WithVisibility(s, t.ids, true);
    var hidden := WithVisibility(s, t.ids, false);
    assert forall k :: 0 <= k < |visible| ==> visible[k] in visible;
    Resolution(t.ids, t.missing, if |visible| == 1 then Some(visible[0]) else None,
               t.anomalies + VisibilityAnomalies(reservation, t.ids, visible, hidden))
  }

  // ---------------------------------------------------------------- when a group is not blocked

  /** The member has no source, or one that is the reservation's own. */
  ghost predicate OwnSource(s: Store, reservation: Reservation, raw: Raw)
    requires Linked(s)
  {
    match LookupPair(s, reservation.tenant, raw)
    case Conflict => false
    case Missing => true
    case Found(i) =>
      var x := s.sources[i];
      var message := s.messages[x.message];
      x.tenant == message.tenant == reservation.tenant &&
      s.conversations[message.conversation].reservation.pk == reservation.pk
  }

  /** The member is found on message m. */
  ghost predicate FoundOn(s: Store, tenant: nat, raw: Raw, m: nat) {
    LookupPair(s, tenant, raw).Found? && s.sources[LookupPair(s, tenant, raw).source].message == m
  }

  ghost predicate SomeFoundOn(s: Store, tenant: nat, members: seq<Raw>, m: nat) {
    exists k :: 0 <= k < |members| && FoundOn(s, tenant, members[k], m)
  }

  ghost predicate AllOwn(s: Store, reservation: Reservation, members: seq<Raw>)
    requires Linked(s)
  {
    forall k :: 0 <= k < |members| ==> OwnSource(s, reservation, members[k])
  }

  ghost predicate NoneTwice(ids: seq<nat>) {
    forall i, j :: 0 <= i < j < |ids| ==> ids[i] != ids[j]
  }

  lemma SomeFoundOnMore(s: Store, tenant: nat, front: seq<Raw>, last: Raw, m: nat)
    ensures SomeFoundOn(s, tenant, front + [last], m) <==>
            SomeFoundOn(s, tenant, front, m) || FoundOn(s, tenant, last, m)
  {
    var all := front + [last];
    assert all[|front|] == last;
    if SomeFoundOn(s, tenant, front, m) {
      var k :| 0 <= k < |front| && FoundOn(s, tenant, front[k], m);
      assert all[k] == front[k];
    }
  }

  /** What a tally says about the members it went through. */
  ghost predicate Tallies(s: Store, reservation: Reservation, members: seq<Raw>, t: Tally)
    requires Linked(s)
  {
    NoneTwice(t.ids) && (t.anomalies == [] <==> AllOwn(s, reservation, members)) &&
    forall m :: m in t.ids <==> SomeFoundOn(s, reservation.tenant, members, m)
  }

  lemma TallyMemberTallies(s: Store, reservation: Reservation, front: seq<Raw>, t: Tally, last: Raw)
    requires Linked(s) && Tallies(s, reservation, front, t)
    ensures Tallies(s, reservation, front + [last], TallyMember(s, reservation, t, last))
  {
    var t' := TallyMember(s, reservation, t, last);
    forall m ensures m in t'.ids <==> SomeFoundOn(s, reservation.tenant, front + [last], m) {
      SomeFoundOnMore(s, reservation.tenant, front, last, m);
    }
    assert t'.anomalies == [] <==> t.anomalies == [] && OwnSource(s, reservation, last);
    assert AllOwn(s, reservation, front + [last]) <==>
           AllOwn(s, reservation, front) && OwnSource(s, reservation, last) by {
      if AllOwn(s, reservation, front + [last]) {
        assert (front + [last])[|front|] == last;
        forall k | 0 <= k < |front| ensures OwnSource(s, reservation, front[k]) {
          assert (front + [last])[k] == front[k];
        }
      }
    }
  }

  lemma TallyOfMore(s: Store, reservation: Reservation, front: seq<Raw>, last: Raw)
    requires Linked(s)
    ensures TallyMembers(s, reservation, front + [last]) ==
            TallyMember(s, reservation, TallyMembers(s, reservation, front), last)
  {
    assert (front + [last])[..|front|] == front;
  }

  lemma TallyOfNone(s: Store, reservation: Reservation)
    requires Linked(s)
    ensures Tallies(s, reservation, [], TallyMembers(s, reservation, []))
  {
  }

  lemma {:induction false} TallyTallies(s: Store, reservation: Reservation, members: seq<Raw>)
    requires Linked(s)
    ensures Tallies(s, reservation, members, TallyMembers(s, reservation, members))
    decreases |members|
  {
    if members == [] {
      TallyOfNone(s, reservation);
    } else {
      var front, last := SplitLast(members);
      TallyTallies(s, reservation, front);
      TallyOfNext(s, reservation, front, last);
    }
  }

  lemma TallyOfNext(s: Store, reservation: Reservation, front: seq<Raw>, last: Raw)
    requires Linked(s) && Tallies(s, reservation, front, TallyMembers(s, reservation, front))
    ensures Tallies(s, reservation, front + [last], TallyMembers(s, reservation, front + [last]))
  {
    TallyMemberTallies(s, reservation, front, TallyMembers(s, reservation, front), last);
    TallyOfMore(s, reservation, front, last);
  }

  lemma {:induction false} VisibilityKeepsNoneTwice(s: Store, ids: seq<nat>, visible: bool)
    requires NoneTwice(ids) && forall k :: 0 <= k < |ids| ==> ids[k] < |s.messages|
    ensures NoneTwice(WithVisibility(s, ids, visible))
  {
    if ids != [] {
      var n := |ids| - 1;
      VisibilityKeepsNoneTwice(s, ids[..n], visible);
      var rest := WithVisibility(s, ids[..n], visible);
      forall i | 0 <= i < |rest| ensures rest[i] != ids[n] { assert rest[i] in ids[..n]; }
    }
  }

  lemma HiddenIffSome(s: Store, ids: seq<nat>)
    requires forall k :: 0 <= k < |ids| ==> ids[k] < |s.messages|
    ensures WithVisibility(s, ids, false) == [] <==> forall m :: m in ids ==> s.messages[m].visible
  {
    var hidden := WithVisibility(s, ids, false);
    if hidden != [] { assert hidden[0] in hidden; }
  }

  lemma AtMostOne(xs: seq<nat>)
    requires NoneTwice(xs)
    ensures |xs| <= 1 <==> forall m, n :: m in xs && n in xs ==> m == n
  {
    if |xs| > 1 { assert xs[0] in xs && xs[1] in xs; }
  }

  lemma OneIsShown(s: Store, m: nat)
    requires m < |s.messages| && s.messages[m].visible
    ensures WithVisibility(s, [m], true) == [m]
  {
    assert [m][..0] == [];
    assert WithVisibility(s, [], true) == [];
  }

  /** Visibility objects to nothing exactly when the messages are all visible and no two. */
  lemma VisibilityIsQuiet(s: Store, reservation: Reservation, ids: seq<nat>)
    requires NoneTwice(ids) && forall k :: 0 <= k < |ids| ==> ids[k] < |s.messages|
    ensures var visible, hidden := WithVisibility(s, ids, true), WithVisibility(s, ids, false);
            VisibilityAnomalies(reservation, ids, visible, hidden) == [] <==>
            (forall m :: m in ids ==> s.messages[m].visible) && forall m, n :: m in ids && n in ids ==> m == n
  {
    var visible, hidden := WithVisibility(s, ids, true), WithVisibility(s, ids, false);
    VisibilityKeepsNoneTwice(s, ids, true);
    HiddenIffSome(s, ids);
    AtMostOne(visible);
    assert VisibilityAnomalies(reservation, ids, visible, hidden) == [] <==> hidden == [] && |visible| <= 1;
    assert hidden == [] ==> forall m :: m in ids <==> m in visible;
  }

  /** Whatever members are found are found on one and the same message, which is visible. */
  ghost predicate OnOneShown(s: Store, tenant: nat, members: seq<Raw>) {
    (forall m: nat :: SomeFoundOn(s, tenant, members, m) ==> m < |s.messages| && s.messages[m].visible) &&
    (forall m: nat, n: nat :: SomeFoundOn(s, tenant, members, m) && SomeFoundOn(s, tenant, members, n) ==> m == n)
  }

  lemma OnOneShownIds(s: Store, tenant: nat, members: seq<Raw>, ids: seq<nat>)
    requires forall m: nat :: m in ids <==> SomeFoundOn(s, tenant, members, m)
    requires forall k :: 0 <= k < |ids| ==> ids[k] < |s.messages|
    ensures OnOneShown(s, tenant, members) <==>
            (forall m :: m in ids ==> s.messages[m].visible) && forall m, n :: m in ids && n in ids ==> m == n
  {
  }

  /** The message that is taken of the visible ones, when there is at most one and it is visible. */
  lemma TheOneShown(s: Store, ids: seq<nat>, m: nat)
    requires |ids| <= 1 && forall k :: 0 <= k < |ids| ==> ids[k] < |s.messages| && s.messages[ids[k]].visible
    ensures var visible := WithVisibility(s, ids, true);
            (if |visible| == 1 then Some(visible[0]) else None) == Some(m) <==> m in ids
  {
    if ids != [] {
      assert ids == [ids[0]];
      OneIsShown(s, ids[0]);
    }
  }

  /** Resolving a group reports nothing exactly when no member's two lookups disagree, every source that is
      found is of the reservation's tenant and conversation, and all of them are on one visible message. */
  lemma UnblockedIff(s: Store, reservation: Reservation, g: Group)
    requires Linked(s)
    ensures !ResolveGroup(s, reservation, g).Blocking() <==>
            AllOwn(s, reservation, g.members) && OnOneShown(s, reservation.tenant, g.members)
  {
    var t := TallyMembers(s, reservation, g.members);
    TallyTallies(s, reservation, g.members);
    VisibilityIsQuiet(s, reservation, t.ids);
    OnOneShownIds(s, reservation.tenant, g.members, t.ids);
  }

  /** The message on which some member is found is the one that an unblocked group resolves to. */
  lemma UnblockedShows(s: Store, reservation: Reservation, g: Group, m: nat)
    requires Linked(s) && !ResolveGroup(s, reservation, g).Blocking()
    ensures ResolveGroup(s, reservation, g).visible == Some(m) <==> SomeFoundOn(s, reservation.tenant, g.members, m)
  {
    var t := TallyMembers(s, reservation, g.members);
    TallyTallies(s, reservation, g.members);
    VisibilityIsQuiet(s, reservation, t.ids);
    AtMostOne(t.ids);
    assert forall k :: 0 <= k < |t.ids| ==> t.ids[k] in t.ids;
    TheOneShown(s, t.ids, m);
  }

  // ---------------------------------------------------------------- applying one group

  function FirstDelivery(members: seq<Raw>): string {
    if members == [] then ""
    else
      var before := FirstDelivery(members[..|members| - 1]);
      if before != "" then before else DeliveryOf(members[|members| - 1])
  }

  function FirstMedia(members: seq<Raw>): string {
    if members == [] then ""
    else
      var before := FirstMedia(members[..|members| - 1]);
      if before != "" then before else members[|members| - 1].media
  }

  predicate AnyChannex(members: seq<Raw>) {
    exists k :: 0 <= k < |members| && members[k].key.kind == Channex
  }

  /** The message row of a group that has none; `now` is the clock, read when the time is unknown. */
  function GroupRow(now: int, tenant: nat, conversation: nat, g: Group): Message {
    Message(tenant, conversation, g.direction.GetOr(InboundDir),
            if AnyChannex(g.members) then Booking else g.channel.GetOr(Email),
            g.body, FirstMedia(g.members), g.occurredAt.GetOr(now), FirstDelivery(g.members), true)
  }

  datatype Filled = Filled(store: Store, inserted: nat, failed: nat)

  /** Give the message one more source unless the row had one when the group was resolved (in s0);
      a uniqueness violation is counted and skipped. */
  function FillMember(s0: Store, f: Filled, tenant: nat, m: nat, raw: Raw): Filled
    requires m < |f.store.messages|
  {
    if LookupPair(s0, tenant, raw).Found? then f
    else if Clashes(f.store, tenant, raw) then f.(failed := f.failed + 1)
    else Filled(Attach(f.store, tenant, m, f.store.messages[m], raw), f.inserted + 1, f.failed)
  }

  function FillMembers(s0: Store, s: Store, tenant: nat, m: nat, members: seq<Raw>): (f: Filled)
    requires m < |s.messages|
    ensures |f.store.messages| == |s.messages|
  {
    if members == [] then Filled(s, 0, 0)
    else FillMember(s0, FillMembers(s0, s, tenant, m, members[..|members| - 1]), tenant, m, members[|members| - 1])
  }

  datatype Applied = Applied(store: Store, createdMessages: nat, createdSources: nat, healedSources: nat)

  /** _apply_group: the group was resolved in s0 and is applied in s. */
  function ApplyGroup(now: int, s0: Store, s: Store, reservation: Reservation, g: Group, visible: Option<nat>): Applied
    requires visible.Some? ==> visible.value < |s.messages|
  {
    var locked := LockConversation(s, reservation);
    match visible
    case Some(m) =>
      var f := FillMembers(s0, locked.store, reservation.tenant, m, g.members);
      Applied(ReconcileChannel(f.store, m), 0, 0, f.inserted + f.failed)
    case None =>
      var m := |s.messages|;
      var born := InsertMessage(locked.store, GroupRow(now, reservation.tenant, locked.conversation, g));
      var f := FillMembers(s0, born, reservation.tenant, m, g.members);
      Applied(ReconcileChannel(f.store, m), 1, f.inserted, f.failed)
  }

  // ---------------------------------------------------------------- one reservation

  predicate SeenBefore(groups: seq<Group>, k: nat, j: nat)
    requires k < |groups| && j < |groups[k].members|
  {
    var key := groups[k].members[j].key;
    (exists a, b :: 0 <= a < k && 0 <= b < |groups[a].members| && groups[a].members[b].key == key) ||
    (exists b :: 0 <= b < j && groups[k].members[b].key == key)
  }

  /** Anomalies for the first j members of group k whose key was met before. */
  function DuplicateAnomalies(reservation: Reservation, groups: seq<Group>, k: nat, j: nat): seq<Anomaly>
    requires k < |groups| && j <= |groups[k].members|
  {
    if j == 0 then []
    else DuplicateAnomalies(reservation, groups, k, j - 1) +
         if SeenBefore(groups, k, j - 1) then [DuplicateMember(reservation.pk, groups[k].members[j - 1].key)] else []
  }

  /** The resolutions of all groups, every one made before anything is written. */
  function Resolutions(s: Store, w: Work): (rs: seq<Resolution>)
    requires Linked(s)
    ensures |rs| == |w.groups|
    ensures forall k :: 0 <= k < |rs| ==> rs[k] == ResolveGroup(s, w.reservation, w.groups[k])
  {
    seq(|w.groups|, k requires 0 <= k < |w.groups| => ResolveGroup(s, w.reservation, w.groups[k]))
  }

  /** What resolving the first n groups reports. */
  function ResolveAnomalies(w: Work, rs: seq<Resolution>, n: nat): seq<Anomaly>
    requires n <= |w.groups| && n <= |rs|
  {
    if n == 0 then []
    else ResolveAnomalies(w, rs, n - 1) +
         DuplicateAnomalies(w.reservation, w.groups, n - 1, |w.groups[n - 1].members|) + rs[n - 1].anomalies
  }

  predicate Reaches(rs: seq<Resolution>, k: int, m: nat) {
    0 <= k < |rs| && m in rs[k].messageIds
  }

  /** A message that two groups resolve to. */
  predicate IsCross(rs: seq<Resolution>, m: nat) {
    exists a, b :: 0 <= a < b < |rs| && Reaches(rs, a, m) && Reaches(rs, b, m)
  }

  /** The crossing messages below n, in order of id. */
  function CrossAnomalies(reservation: Reservation, rs: seq<Resolution>, n: nat): seq<Anomaly> {
    if n == 0 then []
    else CrossAnomalies(reservation, rs, n - 1) + if IsCross(rs, n - 1) then [CrossGroup(reservation.pk, n - 1)] else []
  }

  predicate AnyCross(rs: seq<Resolution>, ids: seq<nat>) {
    exists j :: 0 <= j < |ids| && IsCross(rs, ids[j])
  }

  predicate Blocked(rs: seq<Resolution>, k: nat)
    requires k < |rs|
  {
    rs[k].Blocking() || AnyCross(rs, rs[k].messageIds)
  }

  datatype Progress = Progress(store: Store, report: Report)

  function AfterPhaseOne(w: Work, rs: seq<Resolution>, bound: nat, report: Report): Report
    requires |rs| == |w.groups|
  {
    report.(scanned := report.scanned + 1, groups := report.groups + |w.groups|,
    blocking := report.blocking + ResolveAnomalies(w, rs, |rs|) + CrossAnomalies(w.reservation, rs, bound))
  }

  /** A group to be handled, where it stands, and its resolution. */
  datatype Todo = Todo(index: nat, group: Group, resolution: Resolution)

  /** The numbers below n that a filter keeps, in order. */
  function Keep(p: nat -> bool, n: nat): (r: seq<nat>)
    ensures forall i :: 0 <= i < |r| ==> r[i] < n && p(r[i])
    ensures forall i, j :: 0 <= i < j < |r| ==> r[i] < r[j]
    ensures forall k :: 0 <= k < n && p(k) ==> k in r
  {
    if n == 0 then []
    else if p(n - 1) then Keep(p, n - 1) + [n - 1] else Keep(p, n - 1)
  }

  function OpenIndexes(rs: seq<Resolution>, n: nat): (r: seq<nat>)
    requires n <= |rs|
    ensures forall i :: 0 <= i < |r| ==> r[i] < n && !Blocked(rs, r[i])
    ensures forall i, j :: 0 <= i < j < |r| ==> r[i] < r[j]
    ensures forall k :: 0 <= k < n && !Blocked(rs, k) ==> k in r
  {
    Keep((k: nat) => k < |rs| && !Blocked(rs, k), n)
  }

  /** The unblocked ones among the first n groups. */
  function Unblocked(w: Work, rs: seq<Resolution>, n: nat): (todos: seq<Todo>)
    requires n <= |rs| == |w.groups|
    ensures |todos| == |OpenIndexes(rs, n)|
    ensures forall i :: 0 <= i < |todos| ==> var k := OpenIndexes(rs, n)[i]; todos[i] == Todo(k, w.groups[k], rs[k])
  {
    var indexes := OpenIndexes(rs, n);
    seq(|indexes|, i requires 0 <= i < |indexes| => Todo(indexes[i], w.groups[indexes[i]], rs[indexes[i]]))
  }

  /** The messages to be filled exist. */
  ghost predicate Fit(s: Store, todos: seq<Todo>) {
    forall k :: 0 <= k < |todos| && todos[k].resolution.visible.Some? ==>
      todos[k].resolution.visible.value < |s.messages|
  }

  /** What handling one unblocked group adds to the report when nothing is written. */
  function Inspect(mode: Mode, reservation: Reservation, todo: Todo, report: Report): Report {
    var r := todo.resolution;
    if mode == ValidateOnly then
      report.(blocking := report.blocking +
              (if r.missing != [] then [MissingSource(reservation.pk, |r.missing|)] else []),
      visibleInGroups := report.visibleInGroups + (if r.visible.Some? then 1 else 0),
      sourcesInGroups := report.sourcesInGroups + (if r.visible.Some? then |todo.group.members| else 0))
    else if r.visible.None? then
      report.(wouldCreateMessages := report.wouldCreateMessages + 1,
      wouldCreateSources := report.wouldCreateSources + |todo.group.members|)
    else
      report.(wouldCreateSources := report.wouldCreateSources + |r.missing|)
  }

  function CountApplied(g: Group, a: Applied, report: Report): Report {
    report.(createdMessages := report.createdMessages + a.createdMessages,
    createdSources := report.createdSources + a.createdSources,
    healedSources := report.healedSources + a.healedSources,
    visibleInGroups := report.visibleInGroups + 1,
    sourcesInGroups := report.sourcesInGroups + |g.members|)
  }

  /** One round of the third loop of _process_reservation. */
  function Handle(mode: Mode, now: int, s0: Store, reservation: Reservation, p: Progress, todo: Todo): (p': Progress)
    requires todo.resolution.visible.Some? ==> todo.resolution.visible.value < |p.store.messages|
    ensures |p.store.messages| <= |p'.store.messages|
  {
    if mode == Apply then
      var a := ApplyGroup(now, s0, p.store, reservation, todo.group, todo.resolution.visible);
      Progress(a.store, CountApplied(todo.group, a, p.report))
    else p.(report := Inspect(mode, reservation, todo, p.report))
  }

  function HandleAll(mode: Mode, now: int, s0: Store, reservation: Reservation, todos: seq<Todo>,
                     report: Report): (p: Progress)
    requires Fit(s0, todos)
    ensures |s0.messages| <= |p.store.messages|
  {
    if todos == [] then Progress(s0, report)
    else Handle(mode, now, s0, reservation, HandleAll(mode, now, s0, reservation, todos[..|todos| - 1], report),
                todos[|todos| - 1])
  }

  lemma HandleAllNext(mode: Mode, now: int, s0: Store, reservation: Reservation, todos: seq<Todo>, report: Report,
                      todo: Todo)
    requires Fit(s0, todos) && Fit(s0, todos + [todo])
    ensures var before := HandleAll(mode, now, s0, reservation, todos, report);
            (todo.resolution.visible.Some? ==> todo.resolution.visible.value < |before.store.messages|) &&
            HandleAll(mode, now, s0, reservation, todos + [todo], report) ==
                Handle(mode, now, s0, reservation, before, todo)
  {
    assert (todos + [todo])[..|todos|] == todos;
    assert (todos + [todo])[|todos|] == todo;
  }

  function ProcessReservation(mode: Mode, now: int, s: Store, w: Work, report: Report): Progress
    requires Linked(s)
  {
    var rs := Resolutions(s, w);
    HandleAll(mode, now, s, w.reservation, Unblocked(w, rs, |rs|), AfterPhaseOne(w, rs, |s.messages|, report))
  }
}
