/** Runs that mix live recordings with backfill steps, one committed transaction after the other. */
module CanonicalRuns {
  import opened Wrappers
  import opened Strings
  import opened CanonicalModel
  import opened CanonicalStore
  import opened CanonicalStoreLaws
  import opened CanonicalBackfill
  import opened BackfillFrames
  import opened BackfillPrediction
  import opened BackfillConvergence

  /** A committed transaction: recording one raw row, or applying one reservation's groups. */
  datatype Op = RecordOp(raw: Raw) | BackfillOp(now: int, work: Work)

  function Run(merge: MergeRule, s: Store, op: Op): Store
    requires Linked(s)
  {
    match op
    case RecordOp(raw) => Record(merge, s, raw).store
    case BackfillOp(now, work) => ProcessReservation(Apply, now, s, work, NEW_REPORT).store
  }

  /** Backfill groups hold rows of their reservation that cannot collide with each other. */
  ghost predicate OpOk(op: Op) {
    op.BackfillOp? ==> WorkOk(op.work)
  }

  lemma RunKeepsValid(merge: MergeRule, s: Store, op: Op)
    requires Valid(s) && OpOk(op)
    ensures Valid(Run(merge, s, op)) && Grows(s, Run(merge, s, op))
  {
    match op
    case RecordOp(raw) =>
      RecordKeepsValid(merge, s, raw);
      RecordGrows(merge, s, raw);
    case BackfillOp(now, work) =>
      var _ := ApplySettlesOpen(now, s, work, NEW_REPORT);
      ProcessGrows(Apply, now, s, work, NEW_REPORT, (r: Raw) => true);
  }

  /** The store after all the transactions. */
  ghost function Replay(merge: MergeRule, s: Store, ops: seq<Op>): (r: Store)
    requires Valid(s) && forall k :: 0 <= k < |ops| ==> OpOk(ops[k])
    ensures Valid(r)
  {
    if ops == [] then s
    else
      var before := Replay(merge, s, ops[..|ops| - 1]);
      RunKeepsValid(merge, before, ops[|ops| - 1]);
      Run(merge, before, ops[|ops| - 1])
  }

  lemma ReplayStep(merge: MergeRule, s: Store, ops: seq<Op>) returns (before: Store)
    requires Valid(s) && ops != [] && forall k :: 0 <= k < |ops| ==> OpOk(ops[k])
    ensures before == Replay(merge, s, ops[..|ops| - 1]) && Valid(before)
    ensures Replay(merge, s, ops) == Run(merge, before, ops[|ops| - 1])
  {
    before := Replay(merge, s, ops[..|ops| - 1]);
  }

  /** Over every mixed run: each message has a source, each source lies in its raw row's
      conversation, a message with a Channex source is on Booking, and what was stored stays:
      rows are never moved, hidden or made later, and media and delivery status once set are kept. */
  lemma {:induction false} MixedRun(merge: MergeRule, s: Store, ops: seq<Op>)
    requires Valid(s) && forall k :: 0 <= k < |ops| ==> OpOk(ops[k])
    ensures var r := Replay(merge, s, ops);
            Sourced(r) && Homed(r) && ChannexOnBooking(r) && UniqueConversations(r) && UniqueKeys(r) && UniqueIds(r) &&
            Grows(s, r)
  {
    if ops != [] {
      var n := |ops| - 1;
      MixedRun(merge, s, ops[..n]);
      RunKeepsValid(merge, Replay(merge, s, ops[..n]), ops[n]);
      GrowsTrans(s, Replay(merge, s, ops[..n]), Replay(merge, s, ops));
    }
  }

  // ---------------------------------------------------------------- blocked groups

  /** A message that none of the todos was resolved to is left alone by handling them. */
  lemma {:induction false} HandleAllSpares(now: int, s0: Store, reservation: Reservation, todos: seq<Todo>,
                                           report: Report, m: nat)
    requires Linked(s0) && Fit(s0, todos) && m < |s0.messages|
    requires forall k :: 0 <= k < |todos| ==> todos[k].resolution.visible != Some(m)
    ensures var s := HandleAll(Apply, now, s0, reservation, todos, report).store;
            Spared(s0, s, m) && Linked(s)
  {
    if todos != [] {
      var n := |todos| - 1;
      HandleAllSpares(now, s0, reservation, todos[..n], report, m);
      var s := HandleAll(Apply, now, s0, reservation, todos[..n], report).store;
      ApplyGrows(now, s0, s, reservation, todos[n].group, todos[n].resolution.visible, (r: Raw) => true);
      var s' := ApplyGroup(now, s0, s, reservation, todos[n].group, todos[n].resolution.visible).store;
      SparedOn(s0, s, s', m, todos[n].resolution.visible.GetOr(|s.messages|));
    }
  }

  /** The message row is unchanged and has no new source. */
  ghost predicate Spared(s: Store, s': Store, m: nat) {
    m < |s.messages| <= |s'.messages| && s'.messages[m] == s.messages[m] && s.sources <= s'.sources &&
    forall i :: |s.sources| <= i < |s'.sources| ==> s'.sources[i].message != m
  }

  lemma SparedOn(s0: Store, s: Store, s': Store, m: nat, target: nat)
    requires Spared(s0, s, m) && OnlyOn(s, s', target) && target != m
    ensures Spared(s0, s', m)
  {
    assert forall i :: |s0.sources| <= i < |s.sources| ==> s'.sources[i] == s.sources[i];
  }

  /** No message that a blocked group resolves to is modified by that backfill step. */
  lemma BlockedGroupsAreSpared(now: int, s: Store, w: Work, report: Report, k: nat, m: nat)
    requires Linked(s) && k < |w.groups| && Blocked(Resolutions(s, w), k)
    requires m in Resolutions(s, w)[k].messageIds
    ensures Spared(s, ProcessReservation(Apply, now, s, w, report).store, m)
  {
    var rs := Resolutions(s, w);
    var todos := Unblocked(w, rs, |rs|);
    var ix := OpenIndexes(rs, |rs|);
    UnblockedAreOpen(s, w);
    InTable(s, w, k, m);
    forall i | 0 <= i < |todos| ensures todos[i].resolution.visible != Some(m) {
      assert todos[i].resolution == rs[ix[i]];
      VisibleIsReached(s, w.reservation, w.groups[ix[i]]);
      if m in rs[ix[i]].messageIds {
        if ix[i] < k { OpenGroupsReachApart(rs, ix[i], k, m); } else { OpenGroupsReachApartBack(rs, k, ix[i], m); }
      }
    }
    HandleAllSpares(now, s, w.reservation, todos, AfterPhaseOne(w, rs, |s.messages|, report), m);
  }

  lemma InTable(s: Store, w: Work, k: nat, m: nat)
    requires Linked(s) && k < |w.groups| && m in Resolutions(s, w)[k].messageIds
    ensures m < |s.messages|
  {
    var r := ResolveGroup(s, w.reservation, w.groups[k]);
    var i :| 0 <= i < |r.messageIds| && r.messageIds[i] == m;
  }

  lemma OpenGroupsReachApartBack(rs: seq<Resolution>, a: nat, b: nat, m: nat)
    requires a <= b < |rs| && (a < b ==> m in rs[a].messageIds) && (a == b ==> Blocked(rs, a))
    requires !Blocked(rs, b)
    ensures a < b && m !in rs[b].messageIds
  {
    if m in rs[b].messageIds {
      var j :| 0 <= j < |rs[b].messageIds| && rs[b].messageIds[j] == m;
      assert !IsCross(rs, rs[b].messageIds[j]);
      assert Reaches(rs, a, m) && Reaches(rs, b, m);
    }
  }

  // ---------------------------------------------------------------- messages born live

  ghost predicate Timed(members: seq<Raw>) {
    forall k :: 0 <= k < |members| ==> members[k].item.occurredAt.Some?
  }

  lemma {:induction false} FillKeepsSummary(s0: Store, s: Store, tenant: nat, target: nat, members: seq<Raw>, m: nat)
    requires Linked(s) && target < |s.messages| && m < |s.messages| && Summarises(s, m) && Timed(members)
    ensures Summarises(FillMembers(s0, s, tenant, target, members).store, m)
  {
    if members != [] {
      var n := |members| - 1;
      var raw := members[n];
      FillKeepsSummary(s0, s, tenant, target, members[..n], m);
      FillGrows(s0, s, tenant, target, members[..n], (r: Raw) => true);
      var f := FillMembers(s0, s, tenant, target, members[..n]);
      FillOneKeepsSummary(s0, f, tenant, target, raw, m);
    }
  }

  lemma FillOneKeepsSummary(s0: Store, f: Filled, tenant: nat, target: nat, raw: Raw, m: nat)
    requires Linked(f.store) && target < |f.store.messages| && m < |f.store.messages|
    requires Summarises(f.store, m) && raw.item.occurredAt.Some?
    ensures Summarises(FillMember(s0, f, tenant, target, raw).store, m)
  {
    if !LookupPair(s0, tenant, raw).Found? && !Clashes(f.store, tenant, raw) {
      AttachAdds(f.store, tenant, target, raw);
      AddsKeepsSummary(f.store, Attach(f.store, tenant, target, f.store.messages[target], raw), raw, tenant, target, m);
    }
  }

  lemma ReconcileKeepsSummary(s: Store, target: nat, m: nat)
    requires target < |s.messages| && m < |s.messages| && Summarises(s, m)
    ensures Summarises(ReconcileChannel(s, target), m)
  {
    var s' := ReconcileChannel(s, target);
    SummaryUntouched(s, s', m, s.messages[m].occurredAt, |Strip(s.messages[m].body)|);
  }

  lemma ApplyKeepsSummary(now: int, s0: Store, s: Store, reservation: Reservation, g: Group, visible: Option<nat>,
                          m: nat)
    requires Linked(s) && (visible.Some? ==> visible.value < |s.messages|) && m < |s.messages| && Summarises(s, m) &&
             Timed(g.members)
    ensures var s' := ApplyGroup(now, s0, s, reservation, g, visible).store; m < |s'.messages| && Summarises(s', m)
  {
    var l := LockConversation(s, reservation);
    match visible
    case Some(target) =>
      FinishKeepsSummary(s0, s, l.store, reservation.tenant, target, g.members, m);
    case None =>
      var row := GroupRow(now, reservation.tenant, l.conversation, g);
      FinishKeepsSummary(s0, s, InsertMessage(l.store, row), reservation.tenant, |s.messages|, g.members, m);
  }

  lemma FinishKeepsSummary(s0: Store, s: Store, b: Store, tenant: nat, target: nat, members: seq<Raw>, m: nat)
    requires Linked(b) && target < |b.messages| && m < |s.messages| && Summarises(s, m) && Timed(members)
    requires s.messages <= b.messages && b.sources == s.sources
    ensures var s' := ReconcileChannel(FillMembers(s0, b, tenant, target, members).store, target);
            m < |s'.messages| && Summarises(s', m)
  {
    SummaryUntouched(s, b, m, s.messages[m].occurredAt, |Strip(s.messages[m].body)|);
    FillKeepsSummary(s0, b, tenant, target, members, m);
    ReconcileKeepsSummary(FillMembers(s0, b, tenant, target, members).store, target, m);
  }

  lemma {:induction false} HandleAllKeepsSummary(now: int, s0: Store, reservation: Reservation, todos: seq<Todo>,
                                                 report: Report, m: nat)
    requires Linked(s0) && Fit(s0, todos) && m < |s0.messages| && Summarises(s0, m)
    requires forall k :: 0 <= k < |todos| ==> Timed(todos[k].group.members)
    ensures Summarises(HandleAll(Apply, now, s0, reservation, todos, report).store, m)
  {
    if todos != [] {
      var n := |todos| - 1;
      HandleAllKeepsSummary(now, s0, reservation, todos[..n], report, m);
      HandleAllGrows(Apply, now, s0, reservation, todos[..n], report, (r: Raw) => true);
      var s := HandleAll(Apply, now, s0, reservation, todos[..n], report).store;
      ApplyKeepsSummary(now, s0, s, reservation, todos[n].group, todos[n].resolution.visible, m);
    }
  }

  ghost predicate OpTimed(op: Op) {
    op.BackfillOp? ==> forall k :: 0 <= k < |op.work.groups| ==> Timed(op.work.groups[k].members)
  }

  lemma RunKeepsSummary(merge: MergeRule, s: Store, op: Op, m: nat)
    requires Valid(s) && OpOk(op) && OpTimed(op) && m < |Run(merge, s, op).messages|
    requires if m < |s.messages| then Summarises(s, m) else op.RecordOp?
    ensures Summarises(Run(merge, s, op), m)
  {
    match op
    case RecordOp(raw) => RecordKeepsSummaries(merge, s, raw, m);
    case BackfillOp(now, w) =>
      var rs := Resolutions(s, w);
      UnblockedAreOpen(s, w);
      HandleAllKeepsSummary(now, s, w.reservation, Unblocked(w, rs, |rs|),
                            AfterPhaseOne(w, rs, |s.messages|, NEW_REPORT), m);
  }

  /** The messages of the run that a live recording inserted. */
  ghost predicate BornLive(merge: MergeRule, s: Store, ops: seq<Op>, m: nat)
    requires Valid(s) && forall k :: 0 <= k < |ops| ==> OpOk(ops[k])
  {
    ops != [] &&
    var before := Replay(merge, s, ops[..|ops| - 1]);
    if m < |before.messages| then BornLive(merge, s, ops[..|ops| - 1], m)
    else m < |Replay(merge, s, ops).messages| && ops[|ops| - 1].RecordOp?
  }

  /** A message born live keeps the earliest time and the longest body of its sources, whatever
      recordings and backfill steps attach further sources to it. */
  lemma {:induction false} LiveMessagesSummarise(merge: MergeRule, s: Store, ops: seq<Op>, m: nat)
    requires Valid(s) && forall k :: 0 <= k < |ops| ==> OpOk(ops[k]) && OpTimed(ops[k])
    requires BornLive(merge, s, ops, m)
    ensures m < |Replay(merge, s, ops).messages| && Summarises(Replay(merge, s, ops), m)
  {
    var n := |ops| - 1;
    var before := Replay(merge, s, ops[..n]);
    if m < |before.messages| {
      LiveMessagesSummarise(merge, s, ops[..n], m);
      RunKeepsValid(merge, before, ops[n]);
    }
    RunKeepsSummary(merge, before, ops[n], m);
  }

  // ---------------------------------------------------------------- recording once is enough

  ghost predicate OpRow(op: Op, raw: Raw) {
    match op
    case RecordOp(other) => SameRow(other, raw)
    case BackfillOp(_, work) => forall q :: MemberOf(work, q) ==> SameRow(q, raw)
  }

  /** The raw row got no further source. */
  ghost predicate NotAgain(s: Store, s': Store, raw: Raw) {
    s.sources <= s'.sources && forall i :: |s.sources| <= i < |s'.sources| ==> s'.sources[i].raw != raw
  }

  lemma NotAgainTrans(a: Store, b: Store, c: Store, raw: Raw)
    requires NotAgain(a, b, raw) && NotAgain(b, c, raw)
    ensures NotAgain(a, c, raw)
  {
    assert forall i :: |a.sources| <= i < |b.sources| ==> c.sources[i] == b.sources[i];
  }

  lemma ClashPersists(s: Store, s': Store, tenant: nat, raw: Raw)
    requires Clashes(s, tenant, raw) && s.sources <= s'.sources
    ensures Clashes(s', tenant, raw)
  {
    var i :| 0 <= i < |s.sources| && Blocks(s.sources[i], tenant, raw);
    assert s'.sources[i] == s.sources[i];
  }

  /** A row that has its source is not given another one. */
  lemma {:induction false} FillAvoids(s0: Store, s: Store, tenant: nat, m: nat, members: seq<Raw>, raw: Raw)
    requires m < |s.messages| && Clashes(s, tenant, raw)
    ensures NotAgain(s, FillMembers(s0, s, tenant, m, members).store, raw)
  {
    if members != [] {
      var n := |members| - 1;
      FillAvoids(s0, s, tenant, m, members[..n], raw);
      var f := FillMembers(s0, s, tenant, m, members[..n]);
      ClashPersists(s, f.store, tenant, raw);
      assert NotAgain(f.store, FillMember(s0, f, tenant, m, members[n]).store, raw);
      NotAgainTrans(s, f.store, FillMember(s0, f, tenant, m, members[n]).store, raw);
    }
  }

  lemma ApplyAvoids(now: int, s0: Store, s: Store, reservation: Reservation, g: Group, visible: Option<nat>, raw: Raw)
    requires (visible.Some? ==> visible.value < |s.messages|) && Clashes(s, reservation.tenant, raw)
    ensures NotAgain(s, ApplyGroup(now, s0, s, reservation, g, visible).store, raw)
  {
    var l := LockConversation(s, reservation);
    ClashPersists(s, l.store, reservation.tenant, raw);
    match visible
    case Some(m) =>
      FillAvoids(s0, l.store, reservation.tenant, m, g.members, raw);
    case None =>
      var born := InsertMessage(l.store, GroupRow(now, reservation.tenant, l.conversation, g));
      ClashPersists(s, born, reservation.tenant, raw);
      FillAvoids(s0, born, reservation.tenant, |s.messages|, g.members, raw);
  }

  lemma {:induction false} HandleAllAvoids(now: int, s0: Store, reservation: Reservation, todos: seq<Todo>,
                                           report: Report, raw: Raw)
    requires Fit(s0, todos) && Clashes(s0, reservation.tenant, raw)
    ensures NotAgain(s0, HandleAll(Apply, now, s0, reservation, todos, report).store, raw)
  {
    if todos != [] {
      var n := |todos| - 1;
      HandleAllAvoids(now, s0, reservation, todos[..n], report, raw);
      var s := HandleAll(Apply, now, s0, reservation, todos[..n], report).store;
      ClashPersists(s0, s, reservation.tenant, raw);
      ApplyAvoids(now, s0, s, reservation, todos[n].group, todos[n].resolution.visible, raw);
      NotAgainTrans(s0, s, ApplyGroup(now, s0, s, reservation, todos[n].group, todos[n].resolution.visible).store, raw);
    }
  }

  lemma BackfillAvoids(now: int, s: Store, w: Work, report: Report, raw: Raw)
    requires Linked(s) && raw.reservation.Some? && Clashes(s, raw.reservation.value.tenant, raw)
    requires WorkOk(w) && forall q :: MemberOf(w, q) ==> SameRow(q, raw)
    ensures var s' := ProcessReservation(Apply, now, s, w, report).store;
            s.sources <= s'.sources && forall i :: |s.sources| <= i < |s'.sources| ==> s'.sources[i].raw.key != raw.key
  {
    var s' := ProcessReservation(Apply, now, s, w, report).store;
    var own := (r: Raw) => MemberOf(w, r);
    AllowsMembers(w, own);
    ProcessGrows(Apply, now, s, w, report, own);
    if MemberOf(w, raw) {
      MembersAreOurs(w, raw);
      var rs := Resolutions(s, w);
      UnblockedAreOpen(s, w);
      HandleAllAvoids(now, s, w.reservation, Unblocked(w, rs, |rs|), AfterPhaseOne(w, rs, |s.messages|, report), raw);
    }
    forall i | |s.sources| <= i < |s'.sources| ensures s'.sources[i].raw.key != raw.key {
      assert own(s'.sources[i].raw);
    }
  }

  lemma MembersAreOurs(w: Work, raw: Raw)
    requires WorkOk(w) && MemberOf(w, raw)
    ensures raw.reservation == Some(w.reservation)
  {
    var k :| 0 <= k < |w.groups| && raw in w.groups[k].members;
    assert GroupOk(w.reservation, w.groups[k]);
  }

  lemma RunKeepsResolved(merge: MergeRule, s: Store, op: Op, raw: Raw, m: nat)
    requires Valid(s) && OpOk(op) && OpRow(op, raw) && Resolves(s, raw, m)
    ensures Resolves(Run(merge, s, op), raw, m)
  {
    match op
    case RecordOp(other) => RecordKeepsResolved(merge, s, other, raw, m);
    case BackfillOp(now, w) =>
      BackfillAvoids(now, s, w, NEW_REPORT, raw);
      LookupPersists(s, Run(merge, s, op), raw.reservation.value.tenant, raw);
  }

  lemma {:induction false} ReplayKeepsResolved(merge: MergeRule, s: Store, ops: seq<Op>, raw: Raw, m: nat)
    requires Valid(s) && Resolves(s, raw, m)
    requires forall k :: 0 <= k < |ops| ==> OpOk(ops[k]) && OpRow(ops[k], raw)
    ensures Resolves(Replay(merge, s, ops), raw, m)
  {
    if ops != [] {
      var n := |ops| - 1;
      ReplayKeepsResolved(merge, s, ops[..n], raw, m);
      var before := ReplayStep(merge, s, ops);
      RunKeepsResolved(merge, before, ops[n], raw, m);
    }
  }

  /** A raw row that was recorded once and answered with a message is answered with that message
      at any later point of a mixed run, and nothing is written. */
  lemma RecordedOnceIsEnough(merge: MergeRule, s: Store, raw: Raw, later: seq<Op>)
    requires Valid(s) && Record(merge, s, raw).outcome.Returned?
    requires forall k :: 0 <= k < |later| ==> OpOk(later[k]) && OpRow(later[k], raw)
    ensures Valid(Record(merge, s, raw).store)
    ensures var r := Record(merge, s, raw);
            var s' := Replay(merge, r.store, later);
            Record(merge, s', raw) == Recorded(s', r.outcome)
  {
    RecordKeepsValid(merge, s, raw);
    RecordResolves(merge, s, raw);
    var r := Record(merge, s, raw);
    var m := r.outcome.message;
    AnswerIsHome(merge, s, raw);
    ReplayKeepsResolved(merge, r.store, later, raw, m);
    MixedRun(merge, r.store, later);
    RecordAgain(merge, Replay(merge, r.store, later), raw, m);
  }

  lemma AnswerIsHome(merge: MergeRule, s: Store, raw: Raw)
    requires Valid(s) && Record(merge, s, raw).outcome.Returned?
    ensures var r := Record(merge, s, raw);
            Linked(r.store) && raw.reservation.Some? && LivesIn(r.store, r.outcome.message, raw.reservation.value)
  {
    RecordKeepsValid(merge, s, raw);
    var locked, conversation, matched := RecordCases(merge, s, raw);
    var s', target := RecordEffect(merge, s, raw);
    if target.Some? { assert WellHoused(s', |s.sources|); }
  }
}
