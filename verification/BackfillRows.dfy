/** The backfill as it runs: a report and the store's tables changed in place by loops over
    reservations, groups and members. Every method is proved against CanonicalBackfill. */
module BackfillRows {
  import opened Wrappers
  import opened CanonicalModel
  import opened CanonicalStore
  import opened CanonicalStoreRows
  import opened CanonicalBackfill
  import opened BackfillPrediction

  /** The members that had a source when the group was resolved. */
  function Existing(s: Store, tenant: nat, members: seq<Raw>): (r: set<Raw>)
    ensures forall raw :: raw in r <==> raw in members && LookupPair(s, tenant, raw).Found?
  {
    set raw | raw in members && LookupPair(s, tenant, raw).Found?
  }

  lemma ExistingNext(s: Store, tenant: nat, front: seq<Raw>, raw: Raw)
    ensures Existing(s, tenant, front + [raw])
         == Existing(s, tenant, front) + if LookupPair(s, tenant, raw).Found? then {raw} else {}
  {
    var all, before := Existing(s, tenant, front + [raw]), Existing(s, tenant, front);
    var last := if LookupPair(s, tenant, raw).Found? then {raw} else {};
    forall x ensures x in all <==> x in before + last {
      assert x in front + [raw] <==> x in front || x == raw;
    }
  }

  lemma RoundDone(s: Store, reservation: Reservation, members: seq<Raw>, i: nat)
    requires Linked(s) && i < |members|
    ensures TallyMembers(s, reservation, members[..i + 1])
         == TallyMember(s, reservation, TallyMembers(s, reservation, members[..i]), members[i])
    ensures Existing(s, reservation.tenant, members[..i + 1]) == Existing(s, reservation.tenant, members[..i]) +
            (if LookupPair(s, reservation.tenant, members[i]).Found? then {members[i]} else {})
  {
    assert members[..i + 1] == members[..i] + [members[i]];
    TallyOfMore(s, reservation, members[..i], members[i]);
    ExistingNext(s, reservation.tenant, members[..i], members[i]);
  }

  lemma ReportedTwice(report: Report, a: seq<Anomaly>, b: seq<Anomaly>)
    ensures var once := report.(blocking := report.blocking + a);
            once.(blocking := once.blocking + b) == report.(blocking := report.blocking + (a + b))
  {
    assert report.blocking + a + b == report.blocking + (a + b);
  }

  /** The report after the first n groups were resolved. */
  function Reported(report: Report, w: Work, rs: seq<Resolution>, n: nat): Report
    requires n <= |w.groups| && n <= |rs|
  {
    report.(blocking := report.blocking + ResolveAnomalies(w, rs, n))
  }

  lemma ReportedNext(report: Report, w: Work, rs: seq<Resolution>, r: Resolution)
    requires |rs| < |w.groups|
    ensures var k := |rs|;
            var once := Reported(report, w, rs, k);
            var more := DuplicateAnomalies(w.reservation, w.groups, k, |w.groups[k].members|);
            once.(blocking := once.blocking + (more + r.anomalies)) == Reported(report, w, rs + [r], k + 1)
  {
    var k := |rs|;
    AnomaliesOfPrefix(w, rs, r, k);
    var a, c := ResolveAnomalies(w, rs, k), r.anomalies;
    var b := DuplicateAnomalies(w.reservation, w.groups, k, |w.groups[k].members|);
    assert report.blocking + a + (b + c) == report.blocking + (a + b + c);
  }

  lemma {:induction false} AnomaliesOfPrefix(w: Work, rs: seq<Resolution>, r: Resolution, n: nat)
    requires n <= |rs| <= |w.groups|
    ensures ResolveAnomalies(w, rs + [r], n) == ResolveAnomalies(w, rs, n)
  {
    if n > 0 { AnomaliesOfPrefix(w, rs, r, n - 1); }
  }

  ghost predicate ResolvedAt(s: Store, w: Work, i: nat, r: Resolution)
    requires Linked(s) && i < |w.groups|
  {
    r == CanonicalBackfill.ResolveGroup(s, w.reservation, w.groups[i])
  }

  ghost predicate ExistingAt(s: Store, w: Work, i: nat, existing: set<Raw>)
    requires i < |w.groups|
  {
    existing == Existing(s, w.reservation.tenant, w.groups[i].members)
  }

  ghost predicate AllExisting(s: Store, w: Work, existing: seq<set<Raw>>) {
    |existing| == |w.groups| &&
    forall i {:trigger ExistingAt(s, w, i, existing[i])} :: 0 <= i < |existing| ==> ExistingAt(s, w, i, existing[i])
  }

  ghost predicate ResolvedTo(s: Store, w: Work, n: nat, rs: seq<Resolution>, existing: seq<set<Raw>>)
    requires Linked(s)
  {
    |rs| == |existing| == n <= |w.groups| &&
    (forall i {:trigger ResolvedAt(s, w, i, rs[i])} :: 0 <= i < n ==> ResolvedAt(s, w, i, rs[i])) &&
    (forall i {:trigger ExistingAt(s, w, i, existing[i])} :: 0 <= i < n ==> ExistingAt(s, w, i, existing[i]))
  }

  lemma ResolvedNext(s: Store, w: Work, rs: seq<Resolution>, existing: seq<set<Raw>>, r: Resolution, e: set<Raw>)
    requires Linked(s) && |rs| < |w.groups| && ResolvedTo(s, w, |rs|, rs, existing)
    requires ResolvedAt(s, w, |rs|, r) && ExistingAt(s, w, |rs|, e)
    ensures ResolvedTo(s, w, |rs| + 1, rs + [r], existing + [e])
  {
  }

  lemma ResolvedAll(s: Store, w: Work, rs: seq<Resolution>, existing: seq<set<Raw>>)
    requires Linked(s) && ResolvedTo(s, w, |w.groups|, rs, existing)
    ensures rs == Resolutions(s, w)
  {
    var all := Resolutions(s, w);
    forall i | 0 <= i < |rs| ensures rs[i] == all[i] {
      assert ResolvedAt(s, w, i, rs[i]);
    }
  }

  lemma ResolutionMade(s: Store, reservation: Reservation, g: Group, t: Tally, visible: seq<nat>, hidden: seq<nat>)
    requires Linked(s) && t == TallyMembers(s, reservation, g.members)
    requires visible == WithVisibility(s, t.ids, true) && hidden == WithVisibility(s, t.ids, false)
    ensures CanonicalBackfill.ResolveGroup(s, reservation, g) ==
            Resolution(t.ids, t.missing, if |visible| == 1 then Some(visible[0]) else None,
                       t.anomalies + VisibilityAnomalies(reservation, t.ids, visible, hidden))
  {
  }

  // ---------------------------------------------------------------- keys met so far

  ghost predicate KeyAt(groups: seq<Group>, a: int, b: int, key: RawKey) {
    0 <= a < |groups| && 0 <= b < |groups[a].members| && groups[a].members[b].key == key
  }

  /** The key stands before member j of group k. */
  ghost predicate Met(groups: seq<Group>, k: int, j: int, key: RawKey) {
    exists a, b :: KeyAt(groups, a, b, key) && (a < k || (a == k && b < j))
  }

  /** `seen` holds exactly the keys before member j of group k. */
  ghost predicate Knows(seen: map<RawKey, nat>, groups: seq<Group>, k: int, j: int) {
    forall key :: key in seen <==> Met(groups, k, j, key)
  }

  lemma MetIsSeenBefore(groups: seq<Group>, k: nat, j: nat)
    requires k < |groups| && j < |groups[k].members|
    ensures SeenBefore(groups, k, j) <==> Met(groups, k, j, groups[k].members[j].key)
  {
    var key := groups[k].members[j].key;
    if SeenBefore(groups, k, j) {
      if a, b :| 0 <= a < k && 0 <= b < |groups[a].members| && groups[a].members[b].key == key {
        assert KeyAt(groups, a, b, key);
      } else {
        var b :| 0 <= b < j && groups[k].members[b].key == key;
        assert KeyAt(groups, k, b, key);
      }
    }
  }

  lemma KnowsNext(seen: map<RawKey, nat>, groups: seq<Group>, k: nat, j: nat, index: nat)
    requires k < |groups| && j < |groups[k].members| && Knows(seen, groups, k, j)
    ensures var key := groups[k].members[j].key;
            Knows(if key in seen then seen else seen[key := index], groups, k, j + 1)
  {
    var now := groups[k].members[j].key;
    assert KeyAt(groups, k, j, now);
    forall key ensures Met(groups, k, j + 1, key) <==> Met(groups, k, j, key) || key == now {
      if Met(groups, k, j, key) {
        var a, b :| KeyAt(groups, a, b, key) && (a < k || (a == k && b < j));
        assert a < k || (a == k && b < j + 1);
      }
      if Met(groups, k, j + 1, key) {
        var a, b :| KeyAt(groups, a, b, key) && (a < k || (a == k && b < j + 1));
        assert a == k && b == j ==> key == now;
      }
    }
  }

  lemma KnowsNextGroup(seen: map<RawKey, nat>, groups: seq<Group>, k: nat)
    requires k < |groups| && Knows(seen, groups, k, |groups[k].members|)
    ensures Knows(seen, groups, k + 1, 0)
  {
    forall key ensures Met(groups, k + 1, 0, key) <==> Met(groups, k, |groups[k].members|, key) {
      if Met(groups, k + 1, 0, key) {
        var a, b :| KeyAt(groups, a, b, key) && (a < k + 1 || (a == k + 1 && b < 0));
        assert a < k || (a == k && b < |groups[k].members|);
      }
      if Met(groups, k, |groups[k].members|, key) {
        var a, b :| KeyAt(groups, a, b, key) && (a < k || (a == k && b < |groups[k].members|));
        assert a < k + 1;
      }
    }
  }

  // ---------------------------------------------------------------- which groups reach a message

  ghost predicate Listed(reached: map<nat, set<nat>>, m: nat, k: nat) {
    m in reached && k in reached[m]
  }

  /** `reached` lists for each message the groups before n, and for its first j messages n itself. */
  ghost predicate Lists(reached: map<nat, set<nat>>, rs: seq<Resolution>, n: nat, j: nat) {
    forall m: nat, k: nat :: Listed(reached, m, k) <==>
      (Reaches(rs, k, m) && k < n) ||
      (k == n && n < |rs| && exists i :: 0 <= i < j && i < |rs[n].messageIds| && rs[n].messageIds[i] == m)
  }

  lemma TwoInSet(s: set<nat>, a: nat, b: nat)
    requires a in s && b in s && a != b
    ensures |s| > 1
  {
    assert b in s - {a};
    assert s == (s - {a}) + {a};
  }

  lemma AnotherInSet(s: set<nat>) returns (a: nat, b: nat)
    requires |s| > 1
    ensures a in s && b in s && a < b
  {
    var x :| x in s;
    var rest := s - {x};
    assert s == rest + {x};
    var y :| y in rest;
    a, b := if x < y then x else y, if x < y then y else x;
  }

  lemma CrossingIsShared(reached: map<nat, set<nat>>, rs: seq<Resolution>, m: nat)
    requires forall k: nat :: Listed(reached, m, k) <==> Reaches(rs, k, m)
    ensures IsCross(rs, m) <==> m in reached && |reached[m]| > 1
  {
    if IsCross(rs, m) {
      var a, b :| 0 <= a < b < |rs| && Reaches(rs, a, m) && Reaches(rs, b, m);
      assert Listed(reached, m, a) && Listed(reached, m, b);
      TwoInSet(reached[m], a, b);
    }
    if m in reached && |reached[m]| > 1 {
      var a, b := AnotherInSet(reached[m]);
      assert Listed(reached, m, a) && Listed(reached, m, b);
    }
  }

  /** The group reaches a message below n that another group reaches too. */
  ghost predicate Crossed(rs: seq<Resolution>, k: nat, n: nat) {
    exists m: nat :: m < n && IsCross(rs, m) && Reaches(rs, k, m)
  }

  lemma CrossedNext(rs: seq<Resolution>, k: nat, n: nat)
    ensures Crossed(rs, k, n + 1) <==> Crossed(rs, k, n) || (IsCross(rs, n) && Reaches(rs, k, n))
  {
    if Crossed(rs, k, n) {
      var m: nat :| m < n && IsCross(rs, m) && Reaches(rs, k, m);
      assert m < n + 1;
    }
  }

  lemma CrossedIsAnyCross(rs: seq<Resolution>, k: nat, bound: nat)
    requires k < |rs| && forall j :: 0 <= j < |rs[k].messageIds| ==> rs[k].messageIds[j] < bound
    ensures Crossed(rs, k, bound) <==> AnyCross(rs, rs[k].messageIds)
  {
    if AnyCross(rs, rs[k].messageIds) {
      var j :| 0 <= j < |rs[k].messageIds| && IsCross(rs, rs[k].messageIds[j]);
      assert Reaches(rs, k, rs[k].messageIds[j]);
    }
    if Crossed(rs, k, bound) {
      var m: nat :| m < bound && IsCross(rs, m) && Reaches(rs, k, m);
      var j :| 0 <= j < |rs[k].messageIds| && rs[k].messageIds[j] == m;
    }
  }

  /** The set of blocked groups knows of group k whether it reaches a shared message. */
  ghost predicate CrossAt(rs: seq<Resolution>, k: nat, blocked: set<nat>)
    requires k < |rs|
  {
    k in blocked <==> AnyCross(rs, rs[k].messageIds)
  }

  // ---------------------------------------------------------------- the open groups

  ghost predicate IdsBelow(rs: seq<Resolution>, bound: nat) {
    forall k, j :: 0 <= k < |rs| && 0 <= j < |rs[k].messageIds| ==> rs[k].messageIds[j] < bound
  }

  ghost predicate VisibleBelow(rs: seq<Resolution>, bound: nat) {
    forall k :: 0 <= k < |rs| && rs[k].visible.Some? ==> rs[k].visible.value < bound
  }

  lemma ResolvedBelow(s: Store, w: Work)
    requires Linked(s)
    ensures IdsBelow(Resolutions(s, w), |s.messages|) && VisibleBelow(Resolutions(s, w), |s.messages|)
  {
  }

  /** The todos before group k and, unless it is blocked, group k. */
  function WithTodo(w: Work, rs: seq<Resolution>, k: nat, before: seq<Todo>): seq<Todo>
    requires k < |w.groups| == |rs|
  {
    if Blocked(rs, k) then before else before + [Todo(k, w.groups[k], rs[k])]
  }

  lemma UnblockedNext(w: Work, rs: seq<Resolution>, k: nat)
    requires k < |w.groups| == |rs|
    ensures Unblocked(w, rs, k + 1) == WithTodo(w, rs, k, Unblocked(w, rs, k))
  {
  }

  lemma UnblockedFit(s: Store, w: Work, rs: seq<Resolution>, k: nat)
    requires k <= |w.groups| == |rs| && VisibleBelow(rs, |s.messages|)
    ensures Fit(s, Unblocked(w, rs, k))
  {
  }

  /** How one group is handled; the laws about the loop hold for any way of handling it. */
  type Handler = (Progress, Todo) -> Progress

  /** The progress after the first k groups, of which the blocked ones are skipped. */
  ghost function AfterGroups(f: Handler, start: Progress, w: Work, rs: seq<Resolution>, k: nat): Progress
    requires k <= |w.groups| == |rs|
  {
    if k == 0 then start
    else
      var before := AfterGroups(f, start, w, rs, k - 1);
      if Blocked(rs, k - 1) then before
      else f(before, Todo(k - 1, w.groups[k - 1], rs[k - 1]))
  }

  ghost function AfterTodos(f: Handler, start: Progress, todos: seq<Todo>): Progress {
    if todos == [] then start else f(AfterTodos(f, start, todos[..|todos| - 1]), todos[|todos| - 1])
  }

  lemma AfterOneMore(f: Handler, start: Progress, front: seq<Todo>, last: Todo)
    ensures AfterTodos(f, start, front + [last]) == f(AfterTodos(f, start, front), last)
  {
    assert (front + [last])[..|front|] == front;
  }

  /** f handles a todo as the specification does. */
  ghost predicate HandlesAt(f: Handler, mode: Mode, now: int, s0: Store, reservation: Reservation,
                            p: Progress, todo: Todo)
  {
    (todo.resolution.visible.Some? ==> todo.resolution.visible.value < |p.store.messages|) ==>
      f(p, todo) == Handle(mode, now, s0, reservation, p, todo)
  }

  ghost predicate IsHandle(f: Handler, mode: Mode, now: int, s0: Store, reservation: Reservation) {
    forall p, todo {:trigger HandlesAt(f, mode, now, s0, reservation, p, todo)} ::
      HandlesAt(f, mode, now, s0, reservation, p, todo)
  }

  lemma TheHandler(mode: Mode, now: int, s0: Store, reservation: Reservation) returns (f: Handler)
    ensures IsHandle(f, mode, now, s0, reservation)
  {
    f := (p: Progress, todo: Todo) =>
      if todo.resolution.visible.Some? ==> todo.resolution.visible.value < |p.store.messages| then
        Handle(mode, now, s0, reservation, p, todo)
      else p;
  }

  /** Handling todos one after the other is what the specification does. */
  lemma {:induction false} AfterTodosIsHandleAll(f: Handler, mode: Mode, now: int, s0: Store, reservation: Reservation,
                                                 todos: seq<Todo>, start: Report)
    requires Fit(s0, todos) && IsHandle(f, mode, now, s0, reservation)
    ensures AfterTodos(f, Progress(s0, start), todos) == HandleAll(mode, now, s0, reservation, todos, start)
    decreases |todos|
  {
    if todos != [] {
      var front, last := SplitLast(todos);
      FrontFits(s0, front, last);
      AfterTodosIsHandleAll(f, mode, now, s0, reservation, front, start);
      HandledNext(f, mode, now, s0, reservation, front, last, start);
    }
  }

  lemma FrontFits(s0: Store, front: seq<Todo>, last: Todo)
    requires Fit(s0, front + [last])
    ensures Fit(s0, front)
  {
    assert forall k :: 0 <= k < |front| ==> (front + [last])[k] == front[k];
  }

  lemma HandledNext(f: Handler, mode: Mode, now: int, s0: Store, reservation: Reservation, front: seq<Todo>,
                    last: Todo, start: Report)
    requires Fit(s0, front) && Fit(s0, front + [last]) && IsHandle(f, mode, now, s0, reservation)
    requires AfterTodos(f, Progress(s0, start), front) == HandleAll(mode, now, s0, reservation, front, start)
    ensures AfterTodos(f, Progress(s0, start), front + [last]) ==
            HandleAll(mode, now, s0, reservation, front + [last], start)
  {
    var p := HandleAll(mode, now, s0, reservation, front, start);
    AfterOneMore(f, Progress(s0, start), front, last);
    HandleAllNext(mode, now, s0, reservation, front, start, last);
    assert HandlesAt(f, mode, now, s0, reservation, p, last);
  }

  /** `blocked` holds exactly the groups that reach a shared message. */
  ghost predicate BlocksCrossed(rs: seq<Resolution>, blocked: set<nat>) {
    forall k {:trigger CrossAt(rs, k, blocked)} :: 0 <= k < |rs| ==> CrossAt(rs, k, blocked)
  }

  /** Skipping the blocked groups is handling the unblocked ones. */
  lemma {:induction false} GroupsAreTodos(f: Handler, start: Progress, w: Work, rs: seq<Resolution>, k: nat)
    requires k <= |w.groups| == |rs|
    ensures AfterGroups(f, start, w, rs, k) == AfterTodos(f, start, Unblocked(w, rs, k))
  {
    if k == 0 {
      NoTodos(f, start, w, rs);
    } else {
      var j := k - 1;
      GroupsAreTodos(f, start, w, rs, j);
      GroupsNext(f, start, w, rs, j);
      assert j + 1 == k;
    }
  }

  lemma NoTodos(f: Handler, start: Progress, w: Work, rs: seq<Resolution>)
    requires |w.groups| == |rs|
    ensures AfterGroups(f, start, w, rs, 0) == AfterTodos(f, start, Unblocked(w, rs, 0))
  {
    assert OpenIndexes(rs, 0) == [];
    assert Unblocked(w, rs, 0) == [];
  }

  lemma GroupsNext(f: Handler, start: Progress, w: Work, rs: seq<Resolution>, k: nat)
    requires k < |w.groups| == |rs|
    requires AfterGroups(f, start, w, rs, k) == AfterTodos(f, start, Unblocked(w, rs, k))
    ensures AfterGroups(f, start, w, rs, k + 1) == AfterTodos(f, start, Unblocked(w, rs, k + 1))
  {
    UnblockedNext(w, rs, k);
    TodosNext(f, start, w, rs, k, Unblocked(w, rs, k));
  }

  lemma TodosNext(f: Handler, start: Progress, w: Work, rs: seq<Resolution>, k: nat, before: seq<Todo>)
    requires k < |w.groups| == |rs|
    ensures AfterTodos(f, start, WithTodo(w, rs, k, before)) ==
            if Blocked(rs, k) then AfterTodos(f, start, before)
            else f(AfterTodos(f, start, before), Todo(k, w.groups[k], rs[k]))
  {
    AfterOneMore(f, start, before, Todo(k, w.groups[k], rs[k]));
  }

  class BackfillRun {
    const store: StoreRows
    var report: Report

    constructor (store: StoreRows)
      ensures this.store == store && report == NEW_REPORT
    {
      this.store := store;
      report := NEW_REPORT;
    }

    method AddBlocking(anomaly: Anomaly)
      modifies this`report
      ensures report == old(report).(blocking := old(report).blocking + [anomaly])
    {
      report := report.(blocking := report.blocking + [anomaly]);
    }

    method SourceAnomalies(reservation: Reservation, i: nat) returns (found: seq<Anomaly>)
      requires Linked(store.View()) && i < |store.sources|
      modifies this`report
      ensures found == CanonicalBackfill.SourceAnomalies(store.View(), reservation, i)
      ensures report == old(report).(blocking := old(report).blocking + found)
    {
      found := [];
      var x := store.sources[i];
      var message := store.messages[x.message];
      if message.tenant != reservation.tenant || x.tenant != reservation.tenant {
        AddBlocking(TenantMismatch(reservation.pk, i));
        found := found + [TenantMismatch(reservation.pk, i)];
      }
      if store.conversations[message.conversation].reservation.pk != reservation.pk {
        AddBlocking(ConversationMismatch(reservation.pk, i, message.conversation));
        found := found + [ConversationMismatch(reservation.pk, i, message.conversation)];
      }
    }

    /** One round of the member loop; `found` tells whether the row has a source. */
    method ResolveMember(reservation: Reservation, t: Tally, raw: Raw) returns (t': Tally, found: bool)
      requires Linked(store.View())
      modifies this`report
      ensures t' == TallyMember(store.View(), reservation, t, raw)
      ensures t.anomalies <= t'.anomalies
      ensures report == old(report).(blocking := old(report).blocking + t'.anomalies[|t.anomalies|..])
      ensures found <==> LookupPair(store.View(), reservation.tenant, raw).Found?
    {
      found := false;
      match LookupPair(store.View(), reservation.tenant, raw) {
        case Conflict =>
          AddBlocking(IdentityConflict(reservation.pk, raw.key));
          t' := t.(anomalies := t.anomalies + [IdentityConflict(reservation.pk, raw.key)]);
        case Missing =>
          t' := t.(missing := t.missing + [raw]);
        case Found(source) =>
          var more := SourceAnomalies(reservation, source);
          t' := t.(ids := AddDistinct(t.ids, store.sources[source].message), anomalies := t.anomalies + more);
          found := true;
      }
    }

    /** One round, with what the rounds before it found. */
    method ResolveNextMember(reservation: Reservation, members: seq<Raw>, i: nat, ghost start: Report, t: Tally,
                             existing: set<Raw>)
      returns (t': Tally, existing': set<Raw>)
      requires Linked(store.View()) && i < |members|
      requires t == TallyMembers(store.View(), reservation, members[..i])
      requires existing == Existing(store.View(), reservation.tenant, members[..i])
      requires report == start.(blocking := start.blocking + t.anomalies)
      modifies this`report
      ensures t' == TallyMembers(store.View(), reservation, members[..i + 1])
      ensures existing' == Existing(store.View(), reservation.tenant, members[..i + 1])
      ensures report == start.(blocking := start.blocking + t'.anomalies)
    {
      RoundDone(store.View(), reservation, members, i);
      var found;
      t', found := ResolveMember(reservation, t, members[i]);
      existing' := if found then existing + {members[i]} else existing;
      ReportedTwice(start, t.anomalies, t'.anomalies[|t.anomalies|..]);
      assert t.anomalies + t'.anomalies[|t.anomalies|..] == t'.anomalies;
    }

    method ResolveMembers(reservation: Reservation, members: seq<Raw>) returns (t: Tally, existing: set<Raw>)
      requires Linked(store.View())
      modifies this`report
      ensures t == TallyMembers(store.View(), reservation, members)
      ensures report == old(report).(blocking := old(report).blocking + t.anomalies)
      ensures existing == Existing(store.View(), reservation.tenant, members)
    {
      t, existing := Tally([], [], []), {};
      ghost var s, start := store.View(), report;
      for i := 0 to |members|
        invariant t == TallyMembers(s, reservation, members[..i])
        invariant report == start.(blocking := start.blocking + t.anomalies)
        invariant existing == Existing(s, reservation.tenant, members[..i])
      {
        t, existing := ResolveNextMember(reservation, members, i, start, t, existing);
      }
      assert members[..|members|] == members;
    }

    method JudgeVisibility(reservation: Reservation, ids: seq<nat>, visible: seq<nat>, hidden: seq<nat>)
      returns (found: seq<Anomaly>)
      modifies this`report
      ensures found == VisibilityAnomalies(reservation, ids, visible, hidden)
      ensures report == old(report).(blocking := old(report).blocking + found)
    {
      found := [];
      if hidden != [] && visible == [] {
        found := [MessageInvisible(reservation.pk, hidden[0])];
        AddBlocking(MessageInvisible(reservation.pk, hidden[0]));
      } else if hidden != [] {
        found := [SplitCanonical(reservation.pk, set m | m in ids)];
        AddBlocking(SplitCanonical(reservation.pk, set m | m in ids));
      }
      if |visible| > 1 {
        found := found + [SplitCanonical(reservation.pk, set m | m in visible)];
        AddBlocking(SplitCanonical(reservation.pk, set m | m in visible));
      }
    }

    method ResolveGroup(reservation: Reservation, g: Group) returns (r: Resolution, existing: set<Raw>)
      requires Linked(store.View())
      modifies this`report
      ensures r == CanonicalBackfill.ResolveGroup(store.View(), reservation, g)
      ensures report == old(report).(blocking := old(report).blocking + r.anomalies)
      ensures existing == Existing(store.View(), reservation.tenant, g.members)
    {
      var t: Tally;
      t, existing := ResolveMembers(reservation, g.members);
      var visible := WithVisibility(store.View(), t.ids, true);
      var hidden := WithVisibility(store.View(), t.ids, false);
      var found := JudgeVisibility(reservation, t.ids, visible, hidden);
      ResolutionMade(store.View(), reservation, g, t, visible, hidden);
      ReportedTwice(old(report), t.anomalies, found);
      r := Resolution(t.ids, t.missing, if |visible| == 1 then Some(visible[0]) else None, t.anomalies + found);
    }

    method InsertGroupMessage(now: int, reservation: Reservation, conversation: nat, g: Group) returns (m: nat)
      modifies store`messages
      ensures m == |old(store.messages)|
      ensures store.messages == old(store.messages) + [GroupRow(now, reservation.tenant, conversation, g)]
    {
      var delivery, media := "", "";
      for i := 0 to |g.members|
        invariant delivery == FirstDelivery(g.members[..i]) && media == FirstMedia(g.members[..i])
      {
        assert g.members[..i + 1][..i] == g.members[..i];
        if delivery == "" { delivery := DeliveryOf(g.members[i]); }
        if media == "" { media := g.members[i].media; }
      }
      assert g.members[..|g.members|] == g.members;
      m := |store.messages|;
      var channel := if AnyChannex(g.members) then Booking else g.channel.GetOr(Email);
      store.messages := store.messages + [Message(reservation.tenant, conversation, g.direction.GetOr(InboundDir),
                                                  channel, g.body, media, g.occurredAt.GetOr(now), delivery, true)];
    }

    /** Insert one more source under a savepoint and enrich the message with it. */
    method FillMember(tenant: nat, m: nat, raw: Raw) returns (ok: bool)
      requires m < |store.messages|
      modifies store`messages, store`sources
      ensures ok <==> !Clashes(old(store.View()), tenant, raw)
      ensures store.View() ==
              if ok then Attach(old(store.View()), tenant, m, old(store.messages[m]), raw) else old(store.View())
    {
      ok := store.InsertSource(tenant, m, raw);
      if ok { store.EnrichMessage(m, raw); }
    }

    /** The member loop of _apply_group; `s0` is the store in which the group was resolved. */
    method FillMembers(ghost s0: Store, tenant: nat, m: nat, members: seq<Raw>, existing: set<Raw>)
      returns (inserted: nat, failed: nat)
      requires m < |store.messages|
      requires existing == Existing(s0, tenant, members)
      modifies store`messages, store`sources
      ensures Filled(store.View(), inserted, failed) ==
              CanonicalBackfill.FillMembers(s0, old(store.View()), tenant, m, members)
    {
      inserted, failed := 0, 0;
      ghost var s := store.View();
      for i := 0 to |members|
        invariant store.conversations == s.conversations && m < |store.messages|
        invariant Filled(store.View(), inserted, failed) ==
                  CanonicalBackfill.FillMembers(s0, s, tenant, m, members[..i])
      {
        assert members[..i + 1][..i] == members[..i] && members[i] in members;
        if members[i] !in existing {
          var ok := FillMember(tenant, m, members[i]);
          if ok { inserted := inserted + 1; } else { failed := failed + 1; }
        }
      }
      assert members[..|members|] == members;
    }

    method ApplyGroup(now: int, ghost s0: Store, reservation: Reservation, g: Group, visible: Option<nat>,
                      existing: set<Raw>)
      returns (createdMessages: nat, createdSources: nat, healedSources: nat)
      requires visible.Some? ==> visible.value < |store.messages|
      requires existing == Existing(s0, reservation.tenant, g.members)
      modifies store
      ensures Applied(store.View(), createdMessages, createdSources, healedSources) ==
              CanonicalBackfill.ApplyGroup(now, s0, old(store.View()), reservation, g, visible)
    {
      var conversation := store.LockConversation(reservation);
      var m: nat;
      if visible.Some? {
        m, createdMessages := visible.value, 0;
      } else {
        m := InsertGroupMessage(now, reservation, conversation, g);
        createdMessages := 1;
      }
      var inserted, failed := FillMembers(s0, reservation.tenant, m, g.members, existing);
      store.ReconcileChannel(m);
      createdSources := if createdMessages == 1 then inserted else 0;
      healedSources := if createdMessages == 1 then failed else inserted + failed;
    }

    /** The member loop that looks for keys met before. */
    method CheckDuplicates(w: Work, k: nat, seen: map<RawKey, nat>) returns (seen': map<RawKey, nat>)
      requires k < |w.groups| && Knows(seen, w.groups, k, 0)
      modifies this`report
      ensures Knows(seen', w.groups, k + 1, 0)
      ensures report == old(report).(blocking := old(report).blocking +
                          DuplicateAnomalies(w.reservation, w.groups, k, |w.groups[k].members|))
    {
      var members := w.groups[k].members;
      seen' := seen;
      for j := 0 to |members|
        invariant Knows(seen', w.groups, k, j)
        invariant report == old(report).(blocking := old(report).blocking +
                                         DuplicateAnomalies(w.reservation, w.groups, k, j))
      {
        MetIsSeenBefore(w.groups, k, j);
        KnowsNext(seen', w.groups, k, j, k);
        if members[j].key in seen' {
          AddBlocking(DuplicateMember(w.reservation.pk, members[j].key));
        } else {
          seen' := seen'[members[j].key := k];
        }
      }
      KnowsNextGroup(seen', w.groups, k);
    }

    method ResolveNext(w: Work, k: nat, ghost rs: seq<Resolution>, ghost start: Report, seen: map<RawKey, nat>)
      returns (r: Resolution, existing: set<Raw>, seen': map<RawKey, nat>)
      requires Linked(store.View()) && k == |rs| < |w.groups| && Knows(seen, w.groups, k, 0)
      requires report == Reported(start, w, rs, |rs|)
      modifies this`report
      ensures ResolvedAt(store.View(), w, |rs|, r) && ExistingAt(store.View(), w, |rs|, existing)
      ensures report == Reported(start, w, rs + [r], |rs| + 1)
      ensures Knows(seen', w.groups, |rs| + 1, 0)
    {
      seen' := CheckDuplicates(w, k, seen);
      r, existing := ResolveGroup(w.reservation, w.groups[k]);
      ReportedTwice(old(report), DuplicateAnomalies(w.reservation, w.groups, k, |w.groups[k].members|), r.anomalies);
      ReportedNext(start, w, rs, r);
    }

    /** Resolve every group before anything is written. */
    method ResolveAll(w: Work) returns (rs: seq<Resolution>, existing: seq<set<Raw>>)
      requires Linked(store.View())
      modifies this`report
      ensures ResolvedTo(store.View(), w, |w.groups|, rs, existing)
      ensures report == Reported(old(report), w, rs, |w.groups|)
    {
      ghost var s, start := store.View(), report;
      var seen: map<RawKey, nat> := map[];
      rs, existing := [], [];
      for k := 0 to |w.groups|
        invariant ResolvedTo(s, w, k, rs, existing) && Knows(seen, w.groups, k, 0)
        invariant report == Reported(start, w, rs, k)
      {
        var r, found;
        r, found, seen := ResolveNext(w, k, rs, start, seen);
        ResolvedNext(s, w, rs, existing, r, found);
        rs, existing := rs + [r], existing + [found];
      }
    }

    /** List, for each message, the groups that resolve to it. */
    method ListReached(rs: seq<Resolution>) returns (reached: map<nat, set<nat>>)
      ensures forall m: nat, k: nat :: Listed(reached, m, k) <==> Reaches(rs, k, m)
    {
      reached := map[];
      for k := 0 to |rs|
        invariant Lists(reached, rs, k, 0)
      {
        for j := 0 to |rs[k].messageIds|
          invariant Lists(reached, rs, k, j)
        {
          var m := rs[k].messageIds[j];
          ghost var before := reached;
          reached := reached[m := (if m in reached then reached[m] else {}) + {k}];
          assert forall x: nat, i: nat :: Listed(reached, x, i) <==> Listed(before, x, i) || (x == m && i == k);
        }
      }
    }

    /** Report the messages that several groups reach, and block those groups. */
    method FindCrossing(reservation: Reservation, rs: seq<Resolution>, bound: nat) returns (blocked: set<nat>)
      modifies this`report
      ensures report == old(report).(blocking := old(report).blocking + CrossAnomalies(reservation, rs, bound))
      ensures forall k: nat :: k in blocked <==> Crossed(rs, k, bound)
    {
      var reached := ListReached(rs);
      blocked := {};
      for m := 0 to bound
        invariant report == old(report).(blocking := old(report).blocking + CrossAnomalies(reservation, rs, m))
        invariant forall k: nat :: k in blocked <==> Crossed(rs, k, m)
      {
        CrossingIsShared(reached, rs, m);
        forall k: nat { CrossedNext(rs, k, m); }
        assert forall k: nat :: Listed(reached, m, k) <==> Reaches(rs, k, m);
        if m in reached && |reached[m]| > 1 {
          AddBlocking(CrossGroup(reservation.pk, m));
          blocked := blocked + reached[m];
        }
      }
    }

    /** What validating or simulating one open group adds to the report. */
    method InspectGroup(mode: Mode, reservation: Reservation, todo: Todo)
      requires mode != Apply
      modifies this`report
      ensures report == Inspect(mode, reservation, todo, old(report))
    {
      var r := todo.resolution;
      if mode == ValidateOnly {
        if r.missing != [] { AddBlocking(MissingSource(reservation.pk, |r.missing|)); }
        if r.visible.Some? {
          report := report.(visibleInGroups := report.visibleInGroups + 1,
                            sourcesInGroups := report.sourcesInGroups + |todo.group.members|);
        }
      } else if r.visible.None? {
        report := report.(wouldCreateMessages := report.wouldCreateMessages + 1,
                          wouldCreateSources := report.wouldCreateSources + |todo.group.members|);
      } else {
        report := report.(wouldCreateSources := report.wouldCreateSources + |r.missing|);
      }
    }

    /** One round of the loop over the open groups. */
    method HandleOpen(mode: Mode, now: int, ghost s0: Store, reservation: Reservation, todo: Todo, existing: set<Raw>)
      requires todo.resolution.visible.Some? ==> todo.resolution.visible.value < |store.messages|
      requires existing == Existing(s0, reservation.tenant, todo.group.members)
      modifies this`report, store
      ensures Progress(store.View(), report) ==
              Handle(mode, now, s0, reservation, Progress(old(store.View()), old(report)), todo)
    {
      if mode != Apply {
        InspectGroup(mode, reservation, todo);
        return;
      }
      var messages, sources, healed := ApplyGroup(now, s0, reservation, todo.group, todo.resolution.visible, existing);
      report := report.(createdMessages := report.createdMessages + messages,
                        createdSources := report.createdSources + sources,
                        healedSources := report.healedSources + healed,
                        visibleInGroups := report.visibleInGroups + 1,
                        sourcesInGroups := report.sourcesInGroups + |todo.group.members|);
    }

    /** One round of the loop over the groups. */
    method HandleGroup(mode: Mode, now: int, ghost s0: Store, ghost f: Handler, w: Work, rs: seq<Resolution>,
                       existing: seq<set<Raw>>, blocked: set<nat>, k: nat)
      requires k < |rs| == |w.groups| && AllExisting(s0, w, existing) && IsHandle(f, mode, now, s0, w.reservation)
      requires VisibleBelow(rs, |s0.messages|) && |s0.messages| <= |store.messages| && CrossAt(rs, k, blocked)
      modifies this`report, store
      ensures |s0.messages| <= |store.messages|
      ensures Progress(store.View(), report) ==
              if Blocked(rs, k) then Progress(old(store.View()), old(report))
              else f(Progress(old(store.View()), old(report)), Todo(k, w.groups[k], rs[k]))
    {
      if !rs[k].Blocking() && k !in blocked {
        ghost var todo := Todo(k, w.groups[k], rs[k]);
        assert ExistingAt(s0, w, k, existing[k]);
        assert HandlesAt(f, mode, now, s0, w.reservation, Progress(store.View(), report), todo);
        HandleOpen(mode, now, s0, w.reservation, Todo(k, w.groups[k], rs[k]), existing[k]);
      }
    }

    /** The loop over the groups, each of which was resolved in s0; the blocked ones are skipped. */
    method HandleGroups(mode: Mode, now: int, ghost s0: Store, ghost f: Handler, w: Work, rs: seq<Resolution>,
                        existing: seq<set<Raw>>, blocked: set<nat>)
      requires |rs| == |w.groups| && s0 == store.View() && VisibleBelow(rs, |s0.messages|)
      requires AllExisting(s0, w, existing) && IsHandle(f, mode, now, s0, w.reservation) && BlocksCrossed(rs, blocked)
      modifies this`report, store
      ensures Progress(store.View(), report) ==
              AfterGroups(f, Progress(s0, old(report)), w, rs, |rs|)
    {
      ghost var start := Progress(s0, report);
      for k := 0 to |w.groups|
        invariant |s0.messages| <= |store.messages|
        invariant Progress(store.View(), report) == AfterGroups(f, start, w, rs, k)
      {
        assert CrossAt(rs, k, blocked);
        HandleGroup(mode, now, s0, f, w, rs, existing, blocked, k);
      }
    }

    /** _process_reservation, counting the reservation as the scan does. */
    method ProcessReservation(mode: Mode, now: int, w: Work)
      requires Linked(store.View())
      modifies this`report, store
      ensures Progress(store.View(), report) ==
              CanonicalBackfill.ProcessReservation(mode, now, old(store.View()), w, old(report))
    {
      ghost var s0, start := store.View(), report;
      report := report.(scanned := report.scanned + 1, groups := report.groups + |w.groups|);
      var rs, existing := ResolveAll(w);
      ResolvedAll(s0, w, rs, existing);
      ResolvedBelow(s0, w);
      var blocked := FindCrossing(w.reservation, rs, |store.messages|);
      forall k | 0 <= k < |rs| ensures CrossAt(rs, k, blocked) {
        CrossedIsAnyCross(rs, k, |s0.messages|);
      }
      assert report == AfterPhaseOne(w, rs, |s0.messages|, start);
      ghost var f := TheHandler(mode, now, s0, w.reservation);
      GroupsAreTodos(f, Progress(s0, report), w, rs, |rs|);
      UnblockedFit(s0, w, rs, |rs|);
      AfterTodosIsHandleAll(f, mode, now, s0, w.reservation, Unblocked(w, rs, |rs|), report);
      HandleGroups(mode, now, s0, f, w, rs, existing, blocked);
    }

    /** _scan_tenant over the reservations that the query yields. */
    method ScanTenant(mode: Mode, now: int, works: seq<Work>)
      requires Linked(store.View()) && report == NEW_REPORT
      modifies this`report, store
      ensures Progress(store.View(), report) == Scan(mode, now, old(store.View()), works)
    {
      ghost var s0 := store.View();
      for a := 0 to |works|
        invariant Progress(store.View(), report) == Scan(mode, now, s0, works[..a])
      {
        assert works[..a + 1][..a] == works[..a];
        ProcessReservation(mode, now, works[a]);
      }
      assert works[..|works|] == works;
    }
  }
}
