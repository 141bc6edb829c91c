/** What recording raw rows keeps true of the canonical store. */
module CanonicalStoreLaws {
  import opened Wrappers
  import opened Strings
  import opened CanonicalModel
  import opened CanonicalStore

  // ---------------------------------------------------------------- single writes keep the core

  lemma LockKeepsCore(s: Store, reservation: Reservation)
    requires Core(s)
    ensures Core(LockConversation(s, reservation).store)
    ensures Sourced(s) ==> Sourced(LockConversation(s, reservation).store)
    ensures ChannexOnBooking(s) ==> ChannexOnBooking(LockConversation(s, reservation).store)
  {
    var s' := LockConversation(s, reservation).store;
    assert forall i :: 0 <= i < |s.sources| ==> WellHoused(s, i) && WellHoused(s', i);
    forall m | HasSource(s, m) ensures HasSource(s', m) {
      var i :| 0 <= i < |s.sources| && s.sources[i].message == m;
      assert s'.sources[i].message == m;
    }
  }

  /** The same rows up to the columns that updating a message may change. */
  ghost predicate SameShape(s: Store, s': Store) {
    s'.conversations == s.conversations && s'.sources == s.sources && |s'.messages| == |s.messages| &&
    forall m :: 0 <= m < |s.messages| ==>
      s'.messages[m].tenant == s.messages[m].tenant && s'.messages[m].conversation == s.messages[m].conversation
  }

  lemma UpdateKeepsCore(s: Store, s': Store)
    requires Core(s) && SameShape(s, s')
    ensures Core(s')
    ensures Sourced(s) ==> Sourced(s')
  {
    assert forall i :: 0 <= i < |s.sources| ==> WellHoused(s, i) && WellHoused(s', i);
    forall m | HasSource(s, m) ensures HasSource(s', m) {
      var i :| 0 <= i < |s.sources| && s.sources[i].message == m;
      assert s'.sources[i].message == m;
    }
  }

  lemma InsertSourceKeepsCore(s: Store, m: nat, raw: Raw)
    requires Core(s) && raw.reservation.Some? && HomeOf(s, m, raw.reservation.value)
    requires !Clashes(s, raw.reservation.value.tenant, raw)
    ensures Core(InsertSource(s, raw.reservation.value.tenant, m, raw))
  {
    var tenant := raw.reservation.value.tenant;
    var s' := InsertSource(s, tenant, m, raw);
    var n := |s.sources|;
    forall i | 0 <= i < |s'.sources| ensures WellHoused(s', i) {
      if i < n { assert WellHoused(s, i); }
    }
    forall i, j | 0 <= i < j < |s'.sources|
      ensures s'.sources[i].raw.key != s'.sources[j].raw.key
      ensures !HasId(s'.sources[i], s'.sources[j].tenant, s'.sources[j].provider, s'.sources[j].providerId)
    {
      if j == n { assert !Blocks(s.sources[i], tenant, raw); }
    }
  }

  lemma InsertMessageKeepsCore(s: Store, message: Message)
    requires Core(s) && message.conversation < |s.conversations|
    requires message.tenant == s.conversations[message.conversation].reservation.tenant
    ensures Core(InsertMessage(s, message))
  {
    var s' := InsertMessage(s, message);
    assert forall i :: 0 <= i < |s.sources| ==> WellHoused(s, i) && WellHoused(s', i);
  }

  /** After reconciling m, only m's sources can have broken the Booking rule, and they no longer do. */
  lemma ReconcileRestoresBooking(s: Store, m: nat)
    requires Core(s) && m < |s.messages|
    requires forall i :: 0 <= i < |s.sources| && s.sources[i].message != m && s.sources[i].raw.key.kind == Channex
               ==> s.messages[s.sources[i].message].channel == Booking
    ensures Core(ReconcileChannel(s, m)) && SameShape(s, ReconcileChannel(s, m))
    ensures Sourced(s) ==> Sourced(ReconcileChannel(s, m))
    ensures ChannexOnBooking(ReconcileChannel(s, m))
  {
    UpdateKeepsCore(s, ReconcileChannel(s, m));
  }

  lemma SourcesPersist(s: Store, s': Store, m: nat)
    requires s.sources <= s'.sources && HasSource(s, m)
    ensures HasSource(s', m)
  {
    var i :| 0 <= i < |s.sources| && s.sources[i].message == m;
    assert s'.sources[i] == s.sources[i];
  }

  // ---------------------------------------------------------------- recording keeps the store valid

  lemma AttachKeepsCore(s: Store, m: nat, raw: Raw)
    requires Core(s) && raw.reservation.Some? && HomeOf(s, m, raw.reservation.value)
    requires !Clashes(s, raw.reservation.value.tenant, raw)
    ensures Core(Attach(s, raw.reservation.value.tenant, m, s.messages[m], raw))
  {
    var saved := s.(messages := s.messages[m := Enrich(s.messages[m], raw)]);
    UpdateKeepsCore(s, saved);
    assert Attach(s, raw.reservation.value.tenant, m, s.messages[m], raw) ==
           InsertSource(saved, raw.reservation.value.tenant, m, raw);
    assert forall i :: 0 <= i < |saved.sources| ==> !Blocks(s.sources[i], raw.reservation.value.tenant, raw);
    InsertSourceKeepsCore(saved, m, raw);
  }

  lemma AttachKeepsValid(s: Store, m: nat, raw: Raw)
    requires Valid(s) && raw.reservation.Some? && HomeOf(s, m, raw.reservation.value)
    requires !Clashes(s, raw.reservation.value.tenant, raw)
    ensures Valid(ReconcileChannel(Attach(s, raw.reservation.value.tenant, m, s.messages[m], raw), m))
  {
    AttachKeepsCore(s, m, raw);
    AttachStep(s, m, raw);
    ReconcileRestoresBooking(Attach(s, raw.reservation.value.tenant, m, s.messages[m], raw), m);
  }

  lemma AttachStep(s: Store, m: nat, raw: Raw)
    requires Valid(s) && raw.reservation.Some? && m < |s.messages|
    ensures var s' := Attach(s, raw.reservation.value.tenant, m, s.messages[m], raw);
            Sourced(s') &&
            forall i :: 0 <= i < |s'.sources| && s'.sources[i].message != m && s'.sources[i].raw.key.kind == Channex ==>
              s'.sources[i].message < |s'.messages| && s'.messages[s'.sources[i].message].channel == Booking
  {
    var s' := Attach(s, raw.reservation.value.tenant, m, s.messages[m], raw);
    forall k | 0 <= k < |s'.messages| ensures HasSource(s', k) {
      assert HasSource(s, k);
      SourcesPersist(s, s', k);
    }
  }

  lemma BirthKeepsValid(s: Store, conversation: nat, raw: Raw)
    requires Valid(s) && raw.reservation.Some? && conversation < |s.conversations|
    requires s.conversations[conversation].reservation == raw.reservation.value
    requires !Clashes(s, raw.reservation.value.tenant, raw)
    ensures var tenant, m := raw.reservation.value.tenant, |s.messages|;
            Valid(ReconcileChannel(InsertSource(InsertMessage(s, NewMessage(tenant, conversation, raw)), tenant, m,
                                                raw), m))
  {
    var tenant, m := raw.reservation.value.tenant, |s.messages|;
    var born := InsertMessage(s, NewMessage(tenant, conversation, raw));
    InsertMessageKeepsCore(s, NewMessage(tenant, conversation, raw));
    InsertSourceKeepsCore(born, m, raw);
    var s' := InsertSource(born, tenant, m, raw);
    forall k | 0 <= k < |s'.messages| ensures HasSource(s', k) {
      if k < m {
        assert HasSource(s, k);
        SourcesPersist(s, s', k);
      } else {
        assert s'.sources[|s.sources|].message == m;
      }
    }
    ReconcileRestoresBooking(s', m);
  }

  /** The three ways recording a routed row can end, on the store with its conversation locked. */
  lemma RecordCases(merge: MergeRule, s: Store, raw: Raw)
    returns (locked: Store, conversation: nat, matched: Option<nat>)
    requires Core(s) && raw.reservation.Some?
    ensures Locked(locked, conversation) == LockConversation(s, raw.reservation.value) && Core(locked)
    ensures matched == HeuristicMatch(merge, locked, conversation, raw.item)
    ensures matched.Some? ==> HomeOf(locked, matched.value, raw.reservation.value)
    ensures var tenant := raw.reservation.value.tenant;
            var r := Record(merge, s, raw);
            if Clashes(s, tenant, raw) then
              var x := s.sources[LookupSource(s, tenant, raw).value];
              r == (if s.messages[x.message].conversation == conversation
                    then Recorded(locked, Returned(x.message)) else Recorded(s, Mismatch))
            else if matched.Some? then
              r == Recorded(ReconcileChannel(Attach(locked, tenant, matched.value, locked.messages[matched.value],
                                                    raw), matched.value),
                            Returned(matched.value))
            else
              var m := |s.messages|;
              r == Recorded(ReconcileChannel(InsertSource(InsertMessage(locked, NewMessage(tenant, conversation, raw)),
                                                          tenant, m, raw), m),
                            Returned(m))
  {
    var l := LockConversation(s, raw.reservation.value);
    locked, conversation := l.store, l.conversation;
    LockKeepsCore(s, raw.reservation.value);
    matched := HeuristicMatch(merge, locked, conversation, raw.item);
  }

  /** Recording any raw row keeps every invariant of the store. */
  lemma RecordKeepsValid(merge: MergeRule, s: Store, raw: Raw)
    requires Valid(s)
    ensures Valid(Record(merge, s, raw).store)
  {
    if raw.reservation.Some? {
      var locked, conversation, matched := RecordCases(merge, s, raw);
      LockKeepsCore(s, raw.reservation.value);
      if !Clashes(s, raw.reservation.value.tenant, raw) {
        if matched.Some? {
          AttachKeepsValid(locked, matched.value, raw);
        } else {
          BirthKeepsValid(locked, conversation, raw);
        }
      }
    }
  }

  // ---------------------------------------------------------------- recording again

  /** The raw row already has its message. */
  ghost predicate Resolves(s: Store, raw: Raw, m: nat) {
    raw.reservation.Some? &&
    var found := LookupSource(s, raw.reservation.value.tenant, raw);
    found.Some? && s.sources[found.value].message == m
  }

  lemma LookupPersists(s: Store, s': Store, tenant: nat, raw: Raw)
    requires s.sources <= s'.sources
    requires forall i :: |s.sources| <= i < |s'.sources| ==> s'.sources[i].raw.key != raw.key
    requires LookupSource(s, tenant, raw).Some?
    ensures LookupSource(s', tenant, raw) == LookupSource(s, tenant, raw)
  {
    assert forall i :: 0 <= i < |s.sources| ==> s'.sources[i] == s.sources[i];
  }

  /** Raw rows are immutable: one key, one row. */
  ghost predicate SameRow(a: Raw, b: Raw) {
    a.key == b.key ==> a == b
  }

  /** The same row, except that the channel may have become Booking. */
  ghost predicate UpToBooking(a: Message, b: Message) {
    b.(channel := a.channel) == a && (b.channel == a.channel || b.channel == Booking)
  }

  /** From s to s' the source table got one row for raw, on message m, which was enriched or inserted. */
  ghost predicate Adds(s: Store, s': Store, raw: Raw, tenant: nat, m: nat) {
    s'.sources == s.sources + [NewSource(tenant, m, raw)] &&
    m < |s'.messages| && |s.messages| <= |s'.messages| <= |s.messages| + 1 &&
    (m < |s.messages| ==> |s'.messages| == |s.messages| && UpToBooking(Enrich(s.messages[m], raw), s'.messages[m])) &&
    (m >= |s.messages| ==> s'.messages[m].occurredAt == TimeOf(raw) && s'.messages[m].body == raw.item.body
                           && s'.messages[m].direction == DirectionOf(raw)
                           && s'.messages[m].media == raw.media && s'.messages[m].delivery == DeliveryOf(raw)) &&
    forall k :: 0 <= k < |s.messages| && k != m ==> s'.messages[k] == s.messages[k]
  }

  /** The raw row lies in the merge window of the message and goes its way. */
  ghost predicate Fits(m: Message, raw: Raw) {
    raw.item.occurredAt.Some? && DirectionOf(raw) == m.direction &&
    m.occurredAt - Window(m.direction) <= TimeOf(raw) <= m.occurredAt + Window(m.direction)
  }

  /** The message that recording gives a new source, if any. */
  function Target(merge: MergeRule, s: Store, raw: Raw): Option<nat>
    requires Linked(s)
  {
    var r := Record(merge, s, raw);
    if r.outcome.Returned? && raw.reservation.Some? && !Clashes(s, raw.reservation.value.tenant, raw)
    then Some(r.outcome.message) else None
  }

  /** Recording changes nothing but the conversation table, or adds one source to a fitting or new message. */
  lemma RecordEffect(merge: MergeRule, s: Store, raw: Raw) returns (s': Store, target: Option<nat>)
    requires Core(s)
    ensures s' == Record(merge, s, raw).store && target == Target(merge, s, raw)
    ensures s.conversations <= s'.conversations
    ensures target.None? ==> s'.messages == s.messages && s'.sources == s.sources
    ensures target.Some? ==> raw.reservation.Some? && !Clashes(s, raw.reservation.value.tenant, raw)
    ensures target.Some? ==> Adds(s, s', raw, raw.reservation.value.tenant, target.value)
    ensures target.Some? && target.value < |s.messages| ==>
              HomeOf(s, target.value, raw.reservation.value) && Fits(s.messages[target.value], raw)
    ensures target.Some? && target.value >= |s.messages| ==>
              s'.messages[target.value].conversation == LockConversation(s, raw.reservation.value).conversation
    ensures s'.conversations == s.conversations ||
            (raw.reservation.Some? &&
             s'.conversations == LockConversation(s, raw.reservation.value).store.conversations)
  {
    s', target := Record(merge, s, raw).store, Target(merge, s, raw);
    if raw.reservation.Some? {
      var locked, conversation, matched := RecordCases(merge, s, raw);
      if matched.Some? {
        AttachEffect(locked, raw.reservation.value.tenant, matched.value, raw);
      } else {
        BirthEffect(locked, raw.reservation.value.tenant, conversation, raw);
      }
    }
  }

  lemma AttachEffect(s: Store, tenant: nat, m: nat, raw: Raw)
    requires m < |s.messages|
    ensures var s' := ReconcileChannel(Attach(s, tenant, m, s.messages[m], raw), m);
            Adds(s, s', raw, tenant, m) && s'.conversations == s.conversations
  {
  }

  lemma BirthEffect(s: Store, tenant: nat, conversation: nat, raw: Raw)
    ensures var m := |s.messages|;
            var s' := ReconcileChannel(InsertSource(InsertMessage(s, NewMessage(tenant, conversation, raw)), tenant, m,
                                                    raw), m);
            Adds(s, s', raw, tenant, m) && s'.conversations == s.conversations &&
            s'.messages[m].conversation == conversation
  {
  }

  /** A raw row that has its message keeps it whatever other rows are recorded. */
  lemma RecordKeepsResolved(merge: MergeRule, s: Store, other: Raw, raw: Raw, m: nat)
    requires Core(s) && Resolves(s, raw, m) && SameRow(other, raw)
    ensures Resolves(Record(merge, s, other).store, raw, m)
  {
    var s', target := RecordEffect(merge, s, other);
    LookupPersists(s, s', raw.reservation.value.tenant, raw);
  }

  /** Recording answers with the message the row resolves to from then on. */
  lemma RecordResolves(merge: MergeRule, s: Store, raw: Raw)
    requires Valid(s)
    ensures var r := Record(merge, s, raw);
            r.outcome.Returned? ==> Resolves(r.store, raw, r.outcome.message)
  {
    var s', target := RecordEffect(merge, s, raw);
    if target.Some? {
      AddedIsFound(s, s', raw, raw.reservation.value.tenant, target.value);
    } else if Record(merge, s, raw).outcome.Returned? {
      var _, _, _ := RecordCases(merge, s, raw);
    }
  }

  lemma AddedIsFound(s: Store, s': Store, raw: Raw, tenant: nat, m: nat)
    requires !Clashes(s, tenant, raw) && s'.sources == s.sources + [NewSource(tenant, m, raw)]
    ensures LookupSource(s', tenant, raw) == Some(|s.sources|)
  {
    var n := |s.sources|;
    assert s'.sources[n].raw == raw;
    assert forall i :: 0 <= i < n ==> s'.sources[i] == s.sources[i] && !Blocks(s.sources[i], tenant, raw);
  }

  /** Recording a row that already has its message adds nothing to any table and answers with that
      message when it lies in the row's conversation, else with the mismatch error. */
  lemma RecordAgain(merge: MergeRule, s: Store, raw: Raw, m: nat)
    requires Valid(s) && Resolves(s, raw, m)
    ensures var r := Record(merge, s, raw);
            r.store.messages == s.messages && r.store.sources == s.sources
    ensures var r := Record(merge, s, raw);
            var home := s.conversations[s.messages[m].conversation].reservation == raw.reservation.value;
            r == if home then Recorded(s, Returned(m)) else Recorded(s, Mismatch)
  {
    var locked, conversation, matched := RecordCases(merge, s, raw);
    if s.conversations[s.messages[m].conversation].reservation == raw.reservation.value {
      assert FindConversation(s, raw.reservation.value).Some?;
    }
  }

  // ---------------------------------------------------------------- how one message evolves

  /** What no writer ever does to a message row: move it, turn it, hide it, make it later, replace
      its media or a non-blank delivery status, or change its channel to anything but Booking. */
  ghost predicate Evolves(a: Message, b: Message) {
    a.tenant == b.tenant && a.conversation == b.conversation && a.direction == b.direction && a.visible == b.visible &&
    b.occurredAt <= a.occurredAt && |Strip(a.body)| <= |Strip(b.body)| &&
    (a.media != "" ==> b.media == a.media) &&
    (Strip(a.delivery) != "" ==> b.delivery == a.delivery) &&
    (b.channel == a.channel || b.channel == Booking)
  }

  /** Tables only grow, and every old message row evolves. */
  ghost predicate Grows(s: Store, s': Store) {
    s.conversations <= s'.conversations && s.sources <= s'.sources && |s.messages| <= |s'.messages| &&
    forall m :: 0 <= m < |s.messages| ==> Evolves(s.messages[m], s'.messages[m])
  }

  lemma RecordGrows(merge: MergeRule, s: Store, raw: Raw)
    requires Core(s)
    ensures Grows(s, Record(merge, s, raw).store)
  {
    var s', target := RecordEffect(merge, s, raw);
    if target.Some? { AddsGrows(s, s', raw, raw.reservation.value.tenant, target.value); }
  }

  lemma AddsGrows(s: Store, s': Store, raw: Raw, tenant: nat, m: nat)
    requires s.conversations <= s'.conversations && Adds(s, s', raw, tenant, m)
    ensures Grows(s, s')
  {
    assert s.sources <= s'.sources;
    if m < |s.messages| { EnrichEvolves(s.messages[m], raw); }
  }

  lemma EnrichEvolves(a: Message, raw: Raw)
    ensures Evolves(a, Enrich(a, raw))
  {
  }

  ghost predicate IsSource(s: Store, i: int, m: nat) {
    0 <= i < |s.sources| && s.sources[i].message == m
  }

  /** The message's time is the earliest and its stripped body as long as the longest of its sources. */
  ghost predicate Summarises(s: Store, m: nat)
    requires m < |s.messages|
  {
    Earliest(s, m, s.messages[m].occurredAt) && Longest(s, m, |Strip(s.messages[m].body)|)
  }

  ghost predicate Earliest(s: Store, m: nat, at: int) {
    Peak(s, m, (raw: Raw) => -TimeOf(raw), -at)
  }

  ghost predicate Longest(s: Store, m: nat, size: nat) {
    Peak(s, m, (raw: Raw) => BodySize(raw), size)
  }

  /** The greatest measure over the sources of a message. */
  ghost predicate Peak(s: Store, m: nat, f: Raw -> int, top: int) {
    (forall i :: IsSource(s, i, m) ==> f(s.sources[i].raw) <= top) &&
    (exists i :: IsSource(s, i, m) && top == f(s.sources[i].raw))
  }

  lemma PeakOfAdded(s: Store, s': Store, m: nat, raw: Raw, tenant: nat, f: Raw -> int, top: int)
    requires Peak(s, m, f, top) && s'.sources == s.sources + [NewSource(tenant, m, raw)]
    ensures Peak(s', m, f, if f(raw) > top then f(raw) else top)
  {
    var n := |s.sources|;
    assert forall i :: IsSource(s', i, m) ==> i == n || (IsSource(s, i, m) && s'.sources[i] == s.sources[i]);
    var i :| IsSource(s, i, m) && top == f(s.sources[i].raw);
    assert IsSource(s', i, m) && IsSource(s', n, m);
  }

  lemma PeakUntouched(s: Store, s': Store, m: nat, f: Raw -> int, top: int)
    requires Peak(s, m, f, top)
    requires s.sources <= s'.sources && forall i :: |s.sources| <= i < |s'.sources| ==> s'.sources[i].message != m
    ensures Peak(s', m, f, top)
  {
    assert forall i :: IsSource(s', i, m) <==> IsSource(s, i, m);
    assert forall i :: IsSource(s, i, m) ==> s'.sources[i] == s.sources[i];
  }

  lemma EarliestOfAdded(s: Store, s': Store, m: nat, raw: Raw, tenant: nat, at: int)
    requires Earliest(s, m, at) && s'.sources == s.sources + [NewSource(tenant, m, raw)]
    ensures Earliest(s', m, if TimeOf(raw) < at then TimeOf(raw) else at)
  {
    PeakOfAdded(s, s', m, raw, tenant, (raw: Raw) => -TimeOf(raw), -at);
  }

  lemma LongestOfAdded(s: Store, s': Store, m: nat, raw: Raw, tenant: nat, size: nat)
    requires Longest(s, m, size) && s'.sources == s.sources + [NewSource(tenant, m, raw)]
    ensures Longest(s', m, if BodySize(raw) > size then BodySize(raw) else size)
  {
    PeakOfAdded(s, s', m, raw, tenant, (raw: Raw) => BodySize(raw), size);
  }

  lemma FirstSourceSummarises(s: Store, s': Store, m: nat, raw: Raw, tenant: nat)
    requires s'.sources == s.sources + [NewSource(tenant, m, raw)]
    requires forall i :: 0 <= i < |s.sources| ==> s.sources[i].message != m
    ensures Earliest(s', m, TimeOf(raw)) && Longest(s', m, BodySize(raw))
  {
    assert IsSource(s', |s.sources|, m);
    assert forall i :: IsSource(s', i, m) ==> i == |s.sources|;
  }

  lemma SummaryUntouched(s: Store, s': Store, m: nat, at: int, size: nat)
    requires Earliest(s, m, at) && Longest(s, m, size)
    requires s.sources <= s'.sources && forall i :: |s.sources| <= i < |s'.sources| ==> s'.sources[i].message != m
    ensures Earliest(s', m, at) && Longest(s', m, size)
  {
    PeakUntouched(s, s', m, (raw: Raw) => -TimeOf(raw), -at);
    PeakUntouched(s, s', m, (raw: Raw) => BodySize(raw), size);
  }

  /** Stripped, the enriched body is the longer of the two; the time is the earlier of the two. */
  lemma EnrichSummary(a: Message, raw: Raw)
    requires raw.item.occurredAt.Some?
    ensures var e := Enrich(a, raw);
            e.occurredAt == (if TimeOf(raw) < a.occurredAt then TimeOf(raw) else a.occurredAt) &&
            |Strip(e.body)| == (if BodySize(raw) > |Strip(a.body)| then BodySize(raw) else |Strip(a.body)|)
  {
  }

  lemma AddsKeepsSummary(s: Store, s': Store, raw: Raw, tenant: nat, target: nat, m: nat)
    requires Linked(s) && Adds(s, s', raw, tenant, target) && m < |s'.messages|
    requires m < |s.messages| ==> Summarises(s, m)
    requires target < |s.messages| ==> raw.item.occurredAt.Some?
    ensures Summarises(s', m)
  {
    if m != target {
      SummaryUntouched(s, s', m, s.messages[m].occurredAt, |Strip(s.messages[m].body)|);
    } else if m < |s.messages| {
      AttachKeepsSummary(s, s', raw, tenant, m);
    } else {
      FirstSourceSummarises(s, s', m, raw, tenant);
    }
  }

  lemma AttachKeepsSummary(s: Store, s': Store, raw: Raw, tenant: nat, m: nat)
    requires Adds(s, s', raw, tenant, m) && m < |s.messages| && Summarises(s, m) && raw.item.occurredAt.Some?
    ensures Summarises(s', m)
  {
    EarliestOfAdded(s, s', m, raw, tenant, s.messages[m].occurredAt);
    LongestOfAdded(s, s', m, raw, tenant, |Strip(s.messages[m].body)|);
    EnrichSummary(s.messages[m], raw);
  }

  /** Recording keeps the summary of every message that had it and gives it to the message it inserts. */
  lemma RecordKeepsSummaries(merge: MergeRule, s: Store, raw: Raw, m: nat)
    requires Core(s) && m < |Record(merge, s, raw).store.messages|
    requires m < |s.messages| ==> Summarises(s, m)
    ensures Summarises(Record(merge, s, raw).store, m)
  {
    var s', target := RecordEffect(merge, s, raw);
    if target.Some? {
      AddsKeepsSummary(s, s', raw, raw.reservation.value.tenant, target.value, m);
    } else {
      SummaryUntouched(s, s', m, s.messages[m].occurredAt, |Strip(s.messages[m].body)|);
    }
  }

  /** So the time and body length do not depend on the order in which the same rows arrived. */
  lemma SummaryIgnoresOrder(s: Store, m: nat, s': Store, m': nat)
    requires m < |s.messages| && Summarises(s, m) && m' < |s'.messages| && Summarises(s', m')
    requires forall raw :: RowOf(s, m, raw) <==> RowOf(s', m', raw)
    ensures s.messages[m].occurredAt == s'.messages[m'].occurredAt
    ensures |Strip(s.messages[m].body)| == |Strip(s'.messages[m'].body)|
  {
    SummaryBounds(s, m, s', m');
    SummaryBounds(s', m', s, m);
  }

  ghost predicate RowOf(s: Store, m: nat, raw: Raw) {
    exists i :: IsSource(s, i, m) && s.sources[i].raw == raw
  }

  lemma SummaryBounds(s: Store, m: nat, s': Store, m': nat)
    requires m < |s.messages| && Summarises(s, m) && m' < |s'.messages| && Summarises(s', m')
    requires forall raw :: RowOf(s, m, raw) ==> RowOf(s', m', raw)
    ensures s'.messages[m'].occurredAt <= s.messages[m].occurredAt
    ensures |Strip(s.messages[m].body)| <= |Strip(s'.messages[m'].body)|
  {
    PeakBounds(s, m, s', m', (raw: Raw) => -TimeOf(raw), -s.messages[m].occurredAt, -s'.messages[m'].occurredAt);
    PeakBounds(s, m, s', m', (raw: Raw) => BodySize(raw), |Strip(s.messages[m].body)|, |Strip(s'.messages[m'].body)|);
  }

  lemma PeakBounds(s: Store, m: nat, s': Store, m': nat, f: Raw -> int, top: int, top': int)
    requires Peak(s, m, f, top) && Peak(s', m', f, top')
    requires forall raw :: RowOf(s, m, raw) ==> RowOf(s', m', raw)
    ensures top <= top'
  {
    var i :| IsSource(s, i, m) && top == f(s.sources[i].raw);
    assert RowOf(s, m, s.sources[i].raw);
    var j :| IsSource(s', j, m') && s'.sources[j].raw == s.sources[i].raw;
  }

  // ---------------------------------------------------------------- the sources of one message

  lemma SourcesOfMore(sources: seq<Source>, x: Source, m: nat)
    ensures SourcesOf(sources + [x], m) == SourcesOf(sources, m) + if x.message == m then [x.raw] else []
  {
    assert (sources + [x])[..|sources|] == sources;
  }

  lemma {:induction false} SourcesOfNone(sources: seq<Source>, m: nat)
    requires forall i :: 0 <= i < |sources| ==> sources[i].message != m
    ensures SourcesOf(sources, m) == []
  {
    if sources != [] { SourcesOfNone(sources[..|sources| - 1], m); }
  }

  /** A source is listed among its message's raw rows, the first one in the first place. */
  lemma {:induction false} SourceIsListed(sources: seq<Source>, i: nat, m: nat)
    requires i < |sources| && sources[i].message == m
    ensures sources[i].raw in SourcesOf(sources, m)
    ensures (forall j :: 0 <= j < i ==> sources[j].message != m) ==> SourcesOf(sources, m)[0] == sources[i].raw
  {
    var n := |sources| - 1;
    if i < n {
      SourceIsListed(sources[..n], i, m);
    } else if forall j :: 0 <= j < i ==> sources[j].message != m {
      SourcesOfNone(sources[..n], m);
    }
  }

  lemma {:induction false} ListedIsSource(sources: seq<Source>, raw: Raw, m: nat) returns (i: nat)
    requires raw in SourcesOf(sources, m)
    ensures i < |sources| && sources[i].message == m && sources[i].raw == raw
  {
    var n := |sources| - 1;
    if sources[n].message == m && sources[n].raw == raw { i := n; } else { i := ListedIsSource(sources[..n], raw, m); }
  }

  // ---------------------------------------------------------------- media and delivery status

  /** The value is one of the message's sources', or blank when all of theirs are. */
  ghost predicate Drawn(s: Store, m: nat, f: Raw -> string, value: string) {
    (value == "" ==> forall i :: IsSource(s, i, m) ==> f(s.sources[i].raw) == "") &&
    (value != "" ==> exists i :: IsSource(s, i, m) && f(s.sources[i].raw) == value)
  }

  lemma DrawnOfAdded(s: Store, s': Store, m: nat, raw: Raw, tenant: nat, f: Raw -> string, value: string)
    requires Drawn(s, m, f, value) && s'.sources == s.sources + [NewSource(tenant, m, raw)]
    ensures Drawn(s', m, f, if value == "" then f(raw) else value)
  {
    var n := |s.sources|;
    assert forall i :: IsSource(s', i, m) ==> i == n || (IsSource(s, i, m) && s'.sources[i] == s.sources[i]);
    assert IsSource(s', n, m);
    if value != "" {
      var i :| IsSource(s, i, m) && f(s.sources[i].raw) == value;
      assert IsSource(s', i, m);
    }
  }

  lemma DrawnUntouched(s: Store, s': Store, m: nat, f: Raw -> string, value: string)
    requires Drawn(s, m, f, value)
    requires s.sources <= s'.sources && forall i :: |s.sources| <= i < |s'.sources| ==> s'.sources[i].message != m
    ensures Drawn(s', m, f, value)
  {
    assert forall i :: IsSource(s', i, m) <==> IsSource(s, i, m);
    assert forall i :: IsSource(s, i, m) ==> s'.sources[i] == s.sources[i];
  }

  lemma DrawnFromFirst(s: Store, s': Store, m: nat, raw: Raw, tenant: nat, f: Raw -> string)
    requires s'.sources == s.sources + [NewSource(tenant, m, raw)]
    requires forall i :: 0 <= i < |s.sources| ==> s.sources[i].message != m
    ensures Drawn(s', m, f, f(raw))
  {
    assert IsSource(s', |s.sources|, m);
    assert forall i :: IsSource(s', i, m) ==> i == |s.sources|;
  }

  /** A delivery status that is read off a raw row is never blank text. */
  lemma DeliveryIsText(raw: Raw)
    ensures DeliveryOf(raw) != "" ==> Strip(DeliveryOf(raw)) != ""
  {
    StripIsTrimmed(raw.delivery);
    StripOfTrimmed(Strip(raw.delivery));
    StripOfTrimmed("sent");
    StripOfTrimmed("failed");
  }

  ghost predicate MediaDrawn(s: Store, m: nat)
    requires m < |s.messages|
  {
    Drawn(s, m, (raw: Raw) => raw.media, s.messages[m].media)
  }

  ghost predicate DeliveryDrawn(s: Store, m: nat)
    requires m < |s.messages|
  {
    Drawn(s, m, (raw: Raw) => DeliveryOf(raw), s.messages[m].delivery)
  }

  /** What enriching does to the two columns when the stored ones are drawn from sources. */
  lemma EnrichFills(s: Store, m: nat, raw: Raw)
    requires m < |s.messages| && DeliveryDrawn(s, m)
    ensures var a, e := s.messages[m], Enrich(s.messages[m], raw);
            e.media == (if a.media == "" then raw.media else a.media) &&
            e.delivery == (if a.delivery == "" then DeliveryOf(raw) else a.delivery)
  {
    var a := s.messages[m];
    if a.delivery != "" {
      var i :| IsSource(s, i, m) && DeliveryOf(s.sources[i].raw) == a.delivery;
      DeliveryIsText(s.sources[i].raw);
    } else {
      StripIsTrimmed("");
    }
  }

  lemma AddsKeepsDrawn(s: Store, s': Store, raw: Raw, tenant: nat, target: nat, m: nat)
    requires Linked(s) && Adds(s, s', raw, tenant, target) && m < |s'.messages|
    requires m < |s.messages| ==> MediaDrawn(s, m) && DeliveryDrawn(s, m)
    ensures MediaDrawn(s', m) && DeliveryDrawn(s', m)
  {
    var media, delivery := (raw: Raw) => raw.media, (raw: Raw) => DeliveryOf(raw);
    if m != target {
      DrawnUntouched(s, s', m, media, s.messages[m].media);
      DrawnUntouched(s, s', m, delivery, s.messages[m].delivery);
    } else if m < |s.messages| {
      EnrichFills(s, m, raw);
      DrawnOfAdded(s, s', m, raw, tenant, media, s.messages[m].media);
      DrawnOfAdded(s, s', m, raw, tenant, delivery, s.messages[m].delivery);
    } else {
      DrawnFromFirst(s, s', m, raw, tenant, media);
      DrawnFromFirst(s, s', m, raw, tenant, delivery);
    }
  }

  /** Recording keeps media and delivery status drawn from the sources, also for the message it inserts. */
  lemma RecordKeepsDrawn(merge: MergeRule, s: Store, raw: Raw, m: nat)
    requires Core(s) && m < |Record(merge, s, raw).store.messages|
    requires m < |s.messages| ==> MediaDrawn(s, m) && DeliveryDrawn(s, m)
    ensures MediaDrawn(Record(merge, s, raw).store, m) && DeliveryDrawn(Record(merge, s, raw).store, m)
  {
    var s', target := RecordEffect(merge, s, raw);
    if target.Some? {
      AddsKeepsDrawn(s, s', raw, raw.reservation.value.tenant, target.value, m);
    } else {
      DrawnUntouched(s, s', m, (raw: Raw) => raw.media, s.messages[m].media);
      DrawnUntouched(s, s', m, (raw: Raw) => DeliveryOf(raw), s.messages[m].delivery);
    }
  }

  // ---------------------------------------------------------------- the drift of the merge window

  function SourceCount(sources: seq<Source>, m: nat): nat {
    if sources == [] then 0
    else SourceCount(sources[..|sources| - 1], m) + if sources[|sources| - 1].message == m then 1 else 0
  }

  function Windows(n: int, direction: Direction): int {
    n * Window(direction)
  }

  /** Every source of the message goes in the direction and lies at most `drift` after the time. */
  ghost predicate DriftsBy(s: Store, m: nat, direction: Direction, at: int, drift: int) {
    forall i :: 0 <= i < |s.sources| && s.sources[i].message == m ==>
                  DirectionOf(s.sources[i].raw) == direction && at <= TimeOf(s.sources[i].raw) <= at + drift
  }

  /** Every source shares the message's direction and lies at most n - 1 windows after its time. */
  ghost predicate WithinDrift(s: Store, m: nat)
    requires m < |s.messages|
  {
    DriftsBy(s, m, s.messages[m].direction, s.messages[m].occurredAt,
             Windows(SourceCount(s.sources, m) - 1, s.messages[m].direction))
  }

  lemma CountOfAppend(sources: seq<Source>, x: Source, m: nat)
    ensures SourceCount(sources + [x], m) == SourceCount(sources, m) + if x.message == m then 1 else 0
  {
    assert (sources + [x])[..|sources|] == sources;
  }

  lemma {:induction false} CountOfNone(sources: seq<Source>, m: nat)
    requires forall i :: 0 <= i < |sources| ==> sources[i].message != m
    ensures SourceCount(sources, m) == 0
  {
    if sources != [] { CountOfNone(sources[..|sources| - 1], m); }
  }

  lemma {:induction false} CountPositive(sources: seq<Source>, i: nat)
    requires i < |sources|
    ensures SourceCount(sources, sources[i].message) >= 1
  {
    if i < |sources| - 1 { CountPositive(sources[..|sources| - 1], i); }
  }

  lemma AddedDrift(s: Store, s': Store, m: nat, raw: Raw, tenant: nat, at: int, drift: int)
    requires DriftsBy(s, m, DirectionOf(raw), at, drift) && drift >= 0
    requires at - Window(DirectionOf(raw)) <= TimeOf(raw) <= at + Window(DirectionOf(raw))
    requires s'.sources == s.sources + [NewSource(tenant, m, raw)]
    ensures DriftsBy(s', m, DirectionOf(raw), if TimeOf(raw) < at then TimeOf(raw) else at,
                     drift + Window(DirectionOf(raw)))
  {
  }

  lemma WindowsStep(n: nat, d: Direction)
    ensures Windows(n, d) >= 0 && Windows(n + 1, d) == Windows(n, d) + Window(d)
  {
  }

  lemma AttachKeepsDrift(s: Store, s': Store, m: nat, raw: Raw, tenant: nat)
    requires m < |s.messages| && WithinDrift(s, m) && HasSource(s, m) && Fits(s.messages[m], raw)
    requires s'.sources == s.sources + [NewSource(tenant, m, raw)] && m < |s'.messages|
    requires s'.messages[m].occurredAt == Enrich(s.messages[m], raw).occurredAt
    requires s'.messages[m].direction == s.messages[m].direction
    ensures WithinDrift(s', m)
  {
    var d := s.messages[m].direction;
    CountOfAppend(s.sources, NewSource(tenant, m, raw), m);
    var k :| 0 <= k < |s.sources| && s.sources[k].message == m;
    CountPositive(s.sources, k);
    var n := SourceCount(s.sources, m);
    WindowsStep(n - 1, d);
    AddedDrift(s, s', m, raw, tenant, s.messages[m].occurredAt, Windows(n - 1, d));
  }

  lemma DriftUntouched(s: Store, s': Store, m: nat)
    requires m < |s.messages| && WithinDrift(s, m) && m < |s'.messages|
    requires s'.messages[m].direction == s.messages[m].direction &&
             s'.messages[m].occurredAt == s.messages[m].occurredAt
    requires s'.sources == s.sources ||
             (|s'.sources| == |s.sources| + 1 && s.sources <= s'.sources && s'.sources[|s.sources|].message != m)
    ensures WithinDrift(s', m)
  {
    if s'.sources != s.sources {
      assert s'.sources == s.sources + [s'.sources[|s.sources|]];
      CountOfAppend(s.sources, s'.sources[|s.sources|], m);
    }
  }

  lemma AddsKeepsDrift(s: Store, s': Store, raw: Raw, tenant: nat, target: nat, m: nat)
    requires Linked(s) && Adds(s, s', raw, tenant, target) && m < |s'.messages|
    requires m < |s.messages| ==> WithinDrift(s, m) && HasSource(s, m)
    requires target < |s.messages| ==> Fits(s.messages[target], raw)
    ensures WithinDrift(s', m)
  {
    if m != target {
      DriftUntouched(s, s', m);
    } else if m < |s.messages| {
      AttachKeepsDrift(s, s', m, raw, tenant);
    } else {
      CountOfAppend(s.sources, s'.sources[|s.sources|], m);
      CountOfNone(s.sources, m);
      assert forall i :: 0 <= i < |s.sources| ==> s'.sources[i].message != m;
    }
  }

  lemma RecordKeepsDrift(merge: MergeRule, s: Store, raw: Raw, m: nat)
    requires Core(s) && Sourced(s) && m < |Record(merge, s, raw).store.messages|
    requires m < |s.messages| ==> WithinDrift(s, m)
    ensures WithinDrift(Record(merge, s, raw).store, m)
  {
    var s', target := RecordEffect(merge, s, raw);
    if target.Some? {
      AddsKeepsDrift(s, s', raw, raw.reservation.value.tenant, target.value, m);
    } else {
      DriftUntouched(s, s', m);
    }
  }

  // ---------------------------------------------------------------- whole live runs

  /** The store after the raw rows were recorded one after the other. */
  function RecordAll(merge: MergeRule, raws: seq<Raw>): (s: Store)
    ensures Valid(s)
  {
    if raws == [] then EMPTY_STORE
    else
      var before := RecordAll(merge, raws[..|raws| - 1]);
      RecordKeepsValid(merge, before, raws[|raws| - 1]);
      Record(merge, before, raws[|raws| - 1]).store
  }

  /** Sources of the message agree in direction, and any two lie at most n - 1 windows apart. */
  ghost predicate Spans(s: Store, m: nat)
    requires m < |s.messages|
  {
    var d := s.messages[m].direction;
    forall i, j :: IsSource(s, i, m) && IsSource(s, j, m) ==>
                     DirectionOf(s.sources[i].raw) == DirectionOf(s.sources[j].raw) == d &&
                     TimeOf(s.sources[i].raw) - TimeOf(s.sources[j].raw) <= Windows(SourceCount(s.sources, m) - 1, d)
  }

  /** Over every live run each message's time and body length are the minimum and maximum over its
      sources, and n sources of it span at most n - 1 merge windows of its direction. */
  lemma LiveRun(merge: MergeRule, raws: seq<Raw>, m: nat)
    requires m < |RecordAll(merge, raws).messages|
    ensures Summarises(RecordAll(merge, raws), m) && Spans(RecordAll(merge, raws), m)
  {
    LiveRunDrift(merge, raws, m);
    DriftBoundsSpan(RecordAll(merge, raws), m);
  }

  /** Over every live run a message's media and delivery status are blank exactly when all its
      sources' are, and otherwise one of theirs. */
  lemma {:induction false} LiveRunDrawn(merge: MergeRule, raws: seq<Raw>, m: nat)
    requires m < |RecordAll(merge, raws).messages|
    ensures MediaDrawn(RecordAll(merge, raws), m) && DeliveryDrawn(RecordAll(merge, raws), m)
  {
    if raws != [] {
      var before := RecordAll(merge, raws[..|raws| - 1]);
      if m < |before.messages| { LiveRunDrawn(merge, raws[..|raws| - 1], m); }
      RecordKeepsDrawn(merge, before, raws[|raws| - 1], m);
    }
  }

  lemma DriftBoundsSpan(s: Store, m: nat)
    requires m < |s.messages| && WithinDrift(s, m)
    ensures Spans(s, m)
  {
  }

  lemma {:induction false} LiveRunDrift(merge: MergeRule, raws: seq<Raw>, m: nat)
    requires m < |RecordAll(merge, raws).messages|
    ensures Summarises(RecordAll(merge, raws), m) && WithinDrift(RecordAll(merge, raws), m)
  {
    if raws != [] {
      var before := RecordAll(merge, raws[..|raws| - 1]);
      if m < |before.messages| { LiveRunDrift(merge, raws[..|raws| - 1], m); }
      RecordKeepsSummaries(merge, before, raws[|raws| - 1], m);
      RecordKeepsDrift(merge, before, raws[|raws| - 1], m);
    }
  }

  // ---------------------------------------------------------------- writers in other conversations

  ghost predicate LivesIn(s: Store, m: nat, reservation: Reservation)
    requires Linked(s)
  {
    m < |s.messages| && s.conversations[s.messages[m].conversation].reservation == reservation
  }

  /** From s to s' nothing changed in the reservation's conversation. */
  ghost predicate Leaves(s: Store, s': Store, reservation: Reservation)
    requires Linked(s) && Linked(s')
  {
    Grows(s, s') && FindConversation(s', reservation) == FindConversation(s, reservation) &&
    (forall m :: 0 <= m < |s.messages| && LivesIn(s, m, reservation) ==> s'.messages[m] == s.messages[m]) &&
    (forall m :: |s.messages| <= m < |s'.messages| ==> !LivesIn(s', m, reservation)) &&
    (forall i :: |s.sources| <= i < |s'.sources| ==> !LivesIn(s', s'.sources[i].message, reservation))
  }

  lemma LockLeaves(s: Store, other: Reservation, reservation: Reservation)
    requires Core(s) && other != reservation
    ensures Core(LockConversation(s, other).store)
    ensures FindConversation(LockConversation(s, other).store, reservation) == FindConversation(s, reservation)
  {
    LockKeepsCore(s, other);
    var s' := LockConversation(s, other).store;
    assert forall i :: 0 <= i < |s.conversations| ==> s'.conversations[i] == s.conversations[i];
  }

  lemma AddsLeaves(s: Store, s': Store, raw: Raw, tenant: nat, m: nat, reservation: Reservation)
    requires Linked(s) && Linked(s') && s.conversations <= s'.conversations && Adds(s, s', raw, tenant, m)
    requires FindConversation(s', reservation) == FindConversation(s, reservation)
    requires !LivesIn(s', m, reservation)
    ensures Leaves(s, s', reservation)
  {
    AddsGrows(s, s', raw, tenant, m);
    assert m < |s.messages| ==> !LivesIn(s, m, reservation);
  }

  lemma RecordLeaves(merge: MergeRule, s: Store, raw: Raw, reservation: Reservation)
    requires Valid(s) && raw.reservation != Some(reservation)
    ensures Valid(Record(merge, s, raw).store)
    ensures Leaves(s, Record(merge, s, raw).store, reservation)
  {
    RecordKeepsValid(merge, s, raw);
    RecordGrows(merge, s, raw);
    var s', target := RecordEffect(merge, s, raw);
    if raw.reservation.Some? { LockLeaves(s, raw.reservation.value, reservation); }
    if target.Some? {
      assert WellHoused(s', |s.sources|);
      AddsLeaves(s, s', raw, raw.reservation.value.tenant, target.value, reservation);
    }
  }

  lemma LeavesKeepsMerges(merge: MergeRule, s: Store, s': Store, item: Item, k: nat)
    requires k < |s.messages| && k < |s'.messages| && s'.messages[k] == s.messages[k]
    requires s.sources <= s'.sources && forall i :: |s.sources| <= i < |s'.sources| ==> s'.sources[i].message != k
    ensures Merges(merge, s', item, k) <==> Merges(merge, s, item, k)
  {
    assert forall i :: 0 <= i < |s.sources| ==> s'.sources[i] == s.sources[i];
  }

  /** What suits an item in a conversation does not depend on writers in other conversations. */
  lemma LeavesKeepsSuits(merge: MergeRule, s: Store, s': Store, reservation: Reservation, c: nat, item: Item, k: nat)
    requires Core(s) && Core(s') && Leaves(s, s', reservation) && FindConversation(s, reservation) == Some(c)
    ensures Suits(merge, s', c, item, k) <==> Suits(merge, s, c, item, k)
    ensures Suits(merge, s, c, item, k) ==> s'.messages[k] == s.messages[k]
  {
    if k < |s.messages| && s.messages[k].conversation == c {
      assert LivesIn(s, k, reservation) && LivesIn(s', k, reservation);
      LeavesKeepsMerges(merge, s, s', item, k);
    } else if k < |s'.messages| && s'.messages[k].conversation == c {
      assert LivesIn(s', k, reservation);
    }
  }

  lemma NoConversationNoMatch(merge: MergeRule, s: Store, reservation: Reservation, item: Item)
    requires Core(s) && FindConversation(s, reservation).None?
    ensures var l := LockConversation(s, reservation); HeuristicMatch(merge, l.store, l.conversation, item).None?
  {
    var l := LockConversation(s, reservation);
    var h := HeuristicMatch(merge, l.store, l.conversation, item);
  }

  /** Hence the heuristic match read under the conversation lock is still the match later on. */
  lemma LeavesKeepsMatch(merge: MergeRule, s: Store, s': Store, reservation: Reservation, item: Item)
    requires Core(s) && Core(s') && Leaves(s, s', reservation)
    ensures var l, l' := LockConversation(s, reservation), LockConversation(s', reservation);
            var h := HeuristicMatch(merge, l.store, l.conversation, item);
            HeuristicMatch(merge, l'.store, l'.conversation, item) == h &&
            (h.Some? ==> s'.messages[h.value] == s.messages[h.value])
  {
    match FindConversation(s, reservation)
    case None =>
      NoConversationNoMatch(merge, s, reservation, item);
      NoConversationNoMatch(merge, s', reservation, item);
    case Some(c) =>
      LeavesKeepsMatchIn(merge, s, s', reservation, c, item);
  }

  lemma LeavesKeepsMatchIn(merge: MergeRule, s: Store, s': Store, reservation: Reservation, c: nat, item: Item)
    requires Core(s) && Core(s') && Leaves(s, s', reservation) && FindConversation(s, reservation) == Some(c)
    ensures var h := HeuristicMatch(merge, s, c, item);
            HeuristicMatch(merge, s', c, item) == h && (h.Some? ==> s'.messages[h.value] == s.messages[h.value])
  {
    var h := HeuristicMatch(merge, s, c, item);
    forall k: nat
      ensures Suits(merge, s', c, item, k) <==> Suits(merge, s, c, item, k)
      ensures Suits(merge, s, c, item, k) ==> s'.messages[k] == s.messages[k]
    {
      LeavesKeepsSuits(merge, s, s', reservation, c, item, k);
    }
    MatchIsUnique(merge, s', c, item, h);
  }
}
