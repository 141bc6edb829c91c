/** The switch from raw to canonical timelines: the stored cutoff, completion and read flag of one
    tenant, guarded by live validation and by parity of the two timelines. */
module CanonicalRead {
  import opened Wrappers
  import opened CanonicalModel
  import opened CanonicalStore
  import opened CanonicalStoreRows
  import opened CanonicalBackfill
  import opened BackfillPrediction
  import opened BackfillRows
  import opened CanonicalTimeline

  datatype Cutoff = Cutoff(at: int, channex: nat, whatsapp: nat, inbound: nat, outbound: nat)

  datatype StatusRow = StatusRow(cutoffAt: Option<int>, channex: Option<nat>, whatsapp: Option<nat>,
                                 inbound: Option<nat>,
                                 outbound: Option<nat>, completedAt: Option<int>, readAt: Option<int>)

  // ---------------------------------------------------------------- the cutoff

  predicate HasCutoff(row: StatusRow) {
    row.channex.Some? && row.whatsapp.Some? && row.inbound.Some? && row.outbound.Some?
  }

  function WithCutoff(row: StatusRow, cutoff: Cutoff): StatusRow {
    row.(cutoffAt := Some(cutoff.at), channex := Some(cutoff.channex), whatsapp := Some(cutoff.whatsapp),
    inbound := Some(cutoff.inbound), outbound := Some(cutoff.outbound))
  }

  const FRESH_ROW := StatusRow(None, None, None, None, None, None, None)

  /** The row after a run of the backfill: an apply run stores its cutoff unless one is stored. */
  function AfterRun(row: Option<StatusRow>, mode: Mode, computed: Cutoff): Option<StatusRow> {
    if (row.Some? && HasCutoff(row.value)) || mode != Apply then row
    else Some(WithCutoff(row.GetOr(FRESH_ROW), computed))
  }

  /** The two rows have the same cutoff columns. */
  predicate SameCutoff(a: StatusRow, b: StatusRow) {
    a.cutoffAt == b.cutoffAt && a.channex == b.channex && a.whatsapp == b.whatsapp && a.inbound == b.inbound &&
    a.outbound == b.outbound
  }

  // ---------------------------------------------------------------- parity of two timelines

  /** Reading a key of an entry; an absent key is None. */
  function GetKey(e: Entry, key: string): Value {
    if key in e then e[key] else NoneValue
  }

  ghost predicate SameEntry(a: Entry, b: Entry) {
    forall key :: key != "canonical_id" ==> GetKey(a, key) == GetKey(b, key)
  }

  /** Equal item by item, apart from the canonical id. */
  ghost predicate SameTimeline(a: seq<Entry>, b: seq<Entry>) {
    |a| == |b| && forall i :: 0 <= i < |a| ==> SameEntry(a[i], b[i])
  }

  datatype Pair = Pair(raw: Value, canonical: Value)

  function StripId(e: Entry): Entry {
    map key | key in e && key != "canonical_id" :: e[key]
  }

  function DiffKeys(a: Entry, b: Entry): set<string> {
    StripId(a).Keys + StripId(b).Keys
  }

  function Diff(a: Entry, b: Entry): map<string, Pair> {
    map key | key in DiffKeys(a, b) && GetKey(StripId(a), key) != GetKey(StripId(b), key)
      :: Pair(GetKey(StripId(a), key), GetKey(StripId(b), key))
  }

  /** An empty diff means the same entry, and the other way round. */
  lemma NoDiffIffSame(a: Entry, b: Entry)
    ensures Diff(a, b) == map[] <==> SameEntry(a, b)
  {
    if Diff(a, b) == map[] {
      forall key | key != "canonical_id" ensures GetKey(a, key) == GetKey(b, key) {
        assert key !in Diff(a, b);
      }
    }
    if SameEntry(a, b) {
      forall key ensures key !in Diff(a, b) {
        assert key != "canonical_id" ==> GetKey(a, key) == GetKey(b, key);
      }
    }
  }

  datatype Difference = Difference(index: nat, fields: map<string, Pair>)

  datatype Mismatched =
    | LengthMismatch(pk: nat, raw: nat, canonical: nat)
    | FieldMismatch(pk: nat, diffs: seq<Difference>)

  method DiffItems(a: Entry, b: Entry) returns (fields: map<string, Pair>)
    ensures fields == Diff(a, b)
  {
    var left, right := StripId(a), StripId(b);
    var keys := left.Keys + right.Keys;
    fields := map[];
    ghost var done: set<string> := {};
    while keys != {}
      invariant keys + done == DiffKeys(a, b) && keys !! done
      invariant fields == map key | key in done && GetKey(left, key) != GetKey(right, key) ::
                            Pair(GetKey(left, key), GetKey(right, key))
      decreases keys
    {
      var key :| key in keys;
      keys, done := keys - {key}, done + {key};
      if GetKey(left, key) != GetKey(right, key) {
        fields := fields[key := Pair(GetKey(left, key), GetKey(right, key))];
      }
    }
  }

  /** The indexes below n at which the two timelines differ, with what differs there. */
  function Differences(a: seq<Entry>, b: seq<Entry>, n: nat): seq<Difference>
    requires n <= |a| == |b|
  {
    if n == 0 then []
    else
      var fields := Diff(a[n - 1], b[n - 1]);
      Differences(a, b, n - 1) + if fields != map[] then [Difference(n - 1, fields)] else []
  }

  lemma {:induction false} NoDifferenceIffSame(a: seq<Entry>, b: seq<Entry>, n: nat)
    requires n <= |a| == |b|
    ensures Differences(a, b, n) == [] <==> SameTimeline(a[..n], b[..n])
  {
    if n > 0 {
      NoDifferenceIffSame(a, b, n - 1);
      NoDiffIffSame(a[n - 1], b[n - 1]);
      SameNext(a, b, n);
    }
  }

  lemma SameNext(a: seq<Entry>, b: seq<Entry>, n: nat)
    requires 0 < n <= |a| == |b|
    ensures SameTimeline(a[..n], b[..n]) <==> SameTimeline(a[..n - 1], b[..n - 1]) && SameEntry(a[n - 1], b[n - 1])
  {
    var x, y := a[..n], b[..n];
    assert forall i :: 0 <= i < n - 1 ==> a[..n - 1][i] == x[i] && b[..n - 1][i] == y[i];
    assert x[n - 1] == a[n - 1] && y[n - 1] == b[n - 1];
  }

  /** The loop over two timelines of one length. */
  method DiffTimelines(a: seq<Entry>, b: seq<Entry>) returns (diffs: seq<Difference>)
    requires |a| == |b|
    ensures diffs == Differences(a, b, |a|)
    ensures diffs == [] <==> SameTimeline(a, b)
  {
    diffs := [];
    for i := 0 to |a|
      invariant diffs == Differences(a, b, i)
    {
      var fields := DiffItems(a[i], b[i]);
      if fields != map[] { diffs := diffs + [Difference(i, fields)]; }
    }
    NoDifferenceIffSame(a, b, |a|);
    assert a[..|a|] == a && b[..|b|] == b;
  }

  /** What raw_timeline_for_reservation gives a reservation. */
  datatype RawTimeline = RawTimeline(pk: nat, entries: seq<Entry>)

  /** What the checks before enabling read beside the store: the groups before the cutoff, all
      groups, the raw timelines, the serializers and the jobs. */
  datatype Query = Query(works: seq<Work>, groups: seq<Work>, raws: seq<RawTimeline>, display: Display, jobs: seq<Job>)

  /** Every reservation's raw and canonical timelines are equal item by item. */
  ghost predicate Parity(s: Store, q: Query) {
    forall k :: 0 <= k < |q.raws| ==> InParity(s, q, q.raws[k])
  }

  ghost predicate InParity(s: Store, q: Query, raw: RawTimeline) {
    SameTimeline(raw.entries, TimelineFor(q.display, s, q.jobs, raw.pk))
  }

  /** What comparing one reservation's timelines reports. */
  function Mismatch(pk: nat, raw: seq<Entry>, canonical: seq<Entry>): Option<Mismatched> {
    if |raw| != |canonical| then Some(LengthMismatch(pk, |raw|, |canonical|))
    else
      var diffs := Differences(raw, canonical, |raw|);
      if diffs == [] then None else Some(FieldMismatch(pk, diffs))
  }

  lemma NoMismatchIffSame(pk: nat, raw: seq<Entry>, canonical: seq<Entry>)
    ensures Mismatch(pk, raw, canonical).None? <==> SameTimeline(raw, canonical)
  {
    if |raw| == |canonical| {
      NoDifferenceIffSame(raw, canonical, |raw|);
      assert raw[..|raw|] == raw && canonical[..|canonical|] == canonical;
    }
  }

  /** What is reported for reservation number k. */
  function Finding(s: Store, q: Query, k: nat): Option<Mismatched>
    requires k < |q.raws|
  {
    Mismatch(q.raws[k].pk, q.raws[k].entries, TimelineFor(q.display, s, q.jobs, q.raws[k].pk))
  }

  function Collect(found: seq<Option<Mismatched>>): seq<Mismatched> {
    if found == [] then []
    else Collect(found[..|found| - 1]) + if found[|found| - 1].Some? then [found[|found| - 1].value] else []
  }

  /** What is reported for the reservations, in order. */
  function Findings(s: Store, q: Query): seq<Option<Mismatched>> {
    seq(|q.raws|, k requires 0 <= k < |q.raws| => Finding(s, q, k))
  }

  ghost predicate FoundAt(s: Store, q: Query, k: nat, found: Option<Mismatched>)
    requires k < |q.raws|
  {
    found == Finding(s, q, k)
  }

  ghost predicate AllFound(s: Store, q: Query, found: seq<Option<Mismatched>>)
    requires |found| <= |q.raws|
  {
    forall k {:trigger FoundAt(s, q, k, found[k])} :: 0 <= k < |found| ==> FoundAt(s, q, k, found[k])
  }

  lemma FoundMore(s: Store, q: Query, found: seq<Option<Mismatched>>, next: Option<Mismatched>)
    requires |found| < |q.raws| && AllFound(s, q, found) && FoundAt(s, q, |found|, next)
    ensures AllFound(s, q, found + [next])
  {
    var all := found + [next];
    forall k {:trigger FoundAt(s, q, k, all[k])} | 0 <= k < |all| ensures FoundAt(s, q, k, all[k]) {
      if k < |found| { assert all[k] == found[k] && FoundAt(s, q, k, found[k]); }
    }
  }

  lemma {:induction false} CollectNone(found: seq<Option<Mismatched>>)
    ensures Collect(found) == [] <==> forall k :: 0 <= k < |found| ==> found[k].None?
  {
    if found != [] {
      var n := |found| - 1;
      CollectNone(found[..n]);
      assert forall k :: 0 <= k < n ==> found[..n][k] == found[k];
    }
  }

  /** Nothing is reported exactly when every reservation is in parity. */
  lemma NothingFoundIffParity(s: Store, q: Query)
    ensures Collect(Findings(s, q)) == [] <==> Parity(s, q)
  {
    var found := Findings(s, q);
    CollectNone(found);
    forall k | 0 <= k < |q.raws| ensures found[k].None? <==> InParity(s, q, q.raws[k]) {
      NoMismatchIffSame(q.raws[k].pk, q.raws[k].entries, TimelineFor(q.display, s, q.jobs, q.raws[k].pk));
    }
  }

  /** Reservation number k has an entry in one of its timelines. */
  predicate HasEntries(s: Store, q: Query, k: nat)
    requires k < |q.raws|
  {
    q.raws[k].entries != [] || TimelineFor(q.display, s, q.jobs, q.raws[k].pk) != []
  }

  /** How many of the first n reservations have entries. */
  function WithEntries(s: Store, q: Query, n: nat): nat
    requires n <= |q.raws|
  {
    if n == 0 then 0 else WithEntries(s, q, n - 1) + if HasEntries(s, q, n - 1) then 1 else 0
  }

  method CompareOne(s: Store, q: Query, k: nat) returns (compared: bool, mismatch: Option<Mismatched>)
    requires k < |q.raws|
    ensures FoundAt(s, q, k, mismatch) && (mismatch.Some? ==> compared) && (compared <==> HasEntries(s, q, k))
  {
    var raw := q.raws[k];
    var canonical := TimelineForReservation(q.display, s, q.jobs, raw.pk);
    if raw.entries == [] && canonical == [] { return false, None; }
    if |raw.entries| != |canonical| {
      return true, Some(LengthMismatch(raw.pk, |raw.entries|, |canonical|));
    }
    var diffs := DiffTimelines(raw.entries, canonical);
    return true, if diffs == [] then None else Some(FieldMismatch(raw.pk, diffs));
  }

  /** What the loop over the reservations has after the first k of them. */
  ghost predicate Compared(s: Store, q: Query, k: nat, compared: nat, mismatches: seq<Mismatched>,
                           found: seq<Option<Mismatched>>)
  {
    |found| == k <= |q.raws| && AllFound(s, q, found) && mismatches == Collect(found) &&
    |mismatches| <= compared == WithEntries(s, q, k) <= k
  }

  lemma ComparedNext(s: Store, q: Query, k: nat, compared: nat, mismatches: seq<Mismatched>,
                     found: seq<Option<Mismatched>>, counted: bool, mismatch: Option<Mismatched>)
    requires k < |q.raws| && Compared(s, q, k, compared, mismatches, found) && FoundAt(s, q, k, mismatch)
    requires (mismatch.Some? ==> counted) && (counted <==> HasEntries(s, q, k))
    ensures Compared(s, q, k + 1, compared + if counted then 1 else 0,
                     mismatches + if mismatch.Some? then [mismatch.value] else [], found + [mismatch])
  {
    FoundMore(s, q, found, mismatch);
    assert (found + [mismatch])[..k] == found;
  }

  /** The loop over the reservations. */
  method CompareAll(s: Store, q: Query)
    returns (compared: nat, mismatches: seq<Mismatched>, ghost found: seq<Option<Mismatched>>)
    ensures mismatches == Collect(found) && |mismatches| <= compared == WithEntries(s, q, |q.raws|) <= |q.raws|
    ensures |found| == |q.raws| && AllFound(s, q, found)
  {
    compared, mismatches, found := 0, [], [];
    for k := 0 to |q.raws|
      invariant Compared(s, q, k, compared, mismatches, found)
    {
      var counted, mismatch := CompareOne(s, q, k);
      ComparedNext(s, q, k, compared, mismatches, found, counted, mismatch);
      compared := compared + if counted then 1 else 0;
      mismatches := mismatches + if mismatch.Some? then [mismatch.value] else [];
      found := found + [mismatch];
    }
  }

  /** compare_timeline_parity: no mismatch exactly when every reservation is in parity. */
  method CompareParity(s: Store, q: Query) returns (compared: nat, mismatches: seq<Mismatched>)
    ensures mismatches == Collect(Findings(s, q))
    ensures mismatches == [] <==> Parity(s, q)
    ensures |mismatches| <= compared == WithEntries(s, q, |q.raws|) <= |q.raws|
  {
    ghost var found;
    compared, mismatches, found := CompareAll(s, q);
    forall k | 0 <= k < |found| ensures found[k] == Findings(s, q)[k] {
      assert FoundAt(s, q, k, found[k]);
    }
    assert found == Findings(s, q);
    NothingFoundIffParity(s, q);
  }

  // ---------------------------------------------------------------- live validation

  ghost predicate EveryVisibleHasSource(s: Store, tenant: nat) {
    forall m :: 0 <= m < |s.messages| && s.messages[m].tenant == tenant && s.messages[m].visible ==> HasSource(s, m)
  }

  /** A raw row has a source of its own in the tenant. */
  predicate HasOwnSource(s: Store, tenant: nat, key: RawKey) {
    exists i :: 0 <= i < |s.sources| && s.sources[i].tenant == tenant && s.sources[i].raw.key == key
  }

  ghost predicate EveryMemberHasSource(s: Store, tenant: nat, groups: seq<Work>) {
    forall a :: 0 <= a < |groups| ==> WorkHasSources(s, tenant, groups[a])
  }

  ghost predicate WorkHasSources(s: Store, tenant: nat, w: Work) {
    forall raw :: MemberOf(w, raw) ==> HasOwnSource(s, tenant, raw.key)
  }

  ghost predicate Ready(row: Option<StatusRow>, s: Store, tenant: nat, now: int, q: Query)
    requires Linked(s)
  {
    row.Some? && row.value.completedAt.Some? && HasCutoff(row.value) &&
    Scan(ValidateOnly, now, s, q.works).report.blocking == [] &&
    EveryVisibleHasSource(s, tenant) && EveryMemberHasSource(s, tenant, q.groups)
  }

  datatype Blocker = BackfillIncomplete | CutoffMissing | Reported(anomaly: Anomaly)
                   | VisibleWithoutSource(count: nat) | RawWithoutSource(count: nat)

  predicate Unsourced(s: Store, tenant: nat, m: nat)
    requires m < |s.messages|
  {
    s.messages[m].tenant == tenant && s.messages[m].visible &&
    !(exists i :: 0 <= i < |s.sources| && s.sources[i].message == m)
  }

  /** How many of the tenant's first n messages are visible and have no source. */
  function UnsourcedBelow(s: Store, tenant: nat, n: nat): nat
    requires n <= |s.messages|
  {
    if n == 0 then 0 else UnsourcedBelow(s, tenant, n - 1) + if Unsourced(s, tenant, n - 1) then 1 else 0
  }

  /** How many of the rows have no source of their own in the tenant. */
  function MissingOf(s: Store, tenant: nat, members: seq<Raw>): nat {
    if members == [] then 0
    else
      MissingOf(s, tenant, members[..|members| - 1]) +
      if HasOwnSource(s, tenant, members[|members| - 1].key) then 0 else 1
  }

  function MissingInGroups(s: Store, tenant: nat, groups: seq<Group>): nat {
    if groups == [] then 0
    else
      MissingInGroups(s, tenant, groups[..|groups| - 1]) + MissingOf(s, tenant, groups[|groups| - 1].members)
  }

  function MissingInWorks(s: Store, tenant: nat, works: seq<Work>): nat {
    if works == [] then 0
    else MissingInWorks(s, tenant, works[..|works| - 1]) + MissingInGroups(s, tenant, works[|works| - 1].groups)
  }

  method CountVisibleWithoutSource(s: Store, tenant: nat) returns (count: nat)
    ensures count == UnsourcedBelow(s, tenant, |s.messages|)
    ensures count == 0 <==> EveryVisibleHasSource(s, tenant)
  {
    count := 0;
    for m := 0 to |s.messages|
      invariant count == UnsourcedBelow(s, tenant, m)
      invariant count == 0 <==> forall k :: 0 <= k < m && s.messages[k].tenant == tenant && s.messages[k].visible ==>
                  HasSource(s, k)
    {
      if s.messages[m].tenant == tenant && s.messages[m].visible &&
         !(exists i :: 0 <= i < |s.sources| && s.sources[i].message == m)
      {
        count := count + 1;
      }
    }
  }

  method CountMissing(s: Store, tenant: nat, members: seq<Raw>, keys: set<RawKey>) returns (count: nat)
    requires forall key :: key in keys <==> HasOwnSource(s, tenant, key)
    ensures count == MissingOf(s, tenant, members)
    ensures count == 0 <==> forall i :: 0 <= i < |members| ==> members[i].key in keys
  {
    count := 0;
    for i := 0 to |members|
      invariant count == MissingOf(s, tenant, members[..i])
      invariant count == 0 <==> forall j :: 0 <= j < i ==> members[j].key in keys
    {
      assert members[..i + 1][..i] == members[..i];
      if members[i].key !in keys { count := count + 1; }
    }
    assert members[..|members|] == members;
  }

  method CountWorkMissing(s: Store, tenant: nat, w: Work, keys: set<RawKey>) returns (count: nat)
    requires forall key :: key in keys <==> HasOwnSource(s, tenant, key)
    ensures count == MissingInGroups(s, tenant, w.groups)
    ensures count == 0 <==> WorkHasSources(s, tenant, w)
  {
    count := 0;
    for k := 0 to |w.groups|
      invariant count == MissingInGroups(s, tenant, w.groups[..k])
      invariant count == 0 <==> forall i, raw :: 0 <= i < k && raw in w.groups[i].members ==> raw.key in keys
    {
      assert w.groups[..k + 1][..k] == w.groups[..k];
      var missing := CountMissing(s, tenant, w.groups[k].members, keys);
      assert missing == 0 <==> forall raw :: raw in w.groups[k].members ==> raw.key in keys;
      count := count + missing;
    }
    assert w.groups[..|w.groups|] == w.groups;
    assert forall i, raw :: 0 <= i < |w.groups| && raw in w.groups[i].members ==> MemberOf(w, raw);
  }

  method CountRawsWithoutSource(s: Store, tenant: nat, groups: seq<Work>) returns (count: nat)
    ensures count == MissingInWorks(s, tenant, groups)
    ensures count == 0 <==> EveryMemberHasSource(s, tenant, groups)
  {
    var keys := set i | 0 <= i < |s.sources| && s.sources[i].tenant == tenant :: s.sources[i].raw.key;
    count := 0;
    for a := 0 to |groups|
      invariant count == MissingInWorks(s, tenant, groups[..a])
      invariant count == 0 <==> forall b :: 0 <= b < a ==> WorkHasSources(s, tenant, groups[b])
    {
      assert groups[..a + 1][..a] == groups[..a];
      var missing := CountWorkMissing(s, tenant, groups[a], keys);
      count := count + missing;
    }
    assert groups[..|groups|] == groups;
  }

  function AllReported(found: seq<Anomaly>): seq<Blocker> {
    seq(|found|, i requires 0 <= i < |found| => Reported(found[i]))
  }

  /** What the validation scan objects to, which is not run without a cutoff. */
  function ScanBlockers(row: Option<StatusRow>, found: seq<Anomaly>): seq<Blocker> {
    if row.None? || !HasCutoff(row.value) then [CutoffMissing] else AllReported(found)
  }

  /** What live validation objects to, in its order, with what the scan found and the two counts. */
  function BlockersFrom(row: Option<StatusRow>, found: seq<Anomaly>, hidden: nat, missing: nat): seq<Blocker> {
    (if row.None? || row.value.completedAt.None? then [BackfillIncomplete] else []) +
    ScanBlockers(row, found) +
    (if hidden != 0 then [VisibleWithoutSource(hidden)] else []) +
    (if missing != 0 then [RawWithoutSource(missing)] else [])
  }

  function Blockers(row: Option<StatusRow>, s: Store, tenant: nat, now: int, q: Query): seq<Blocker>
    requires Linked(s)
  {
    BlockersFrom(row, Scan(ValidateOnly, now, s, q.works).report.blocking, UnsourcedBelow(s, tenant, |s.messages|),
                 MissingInWorks(s, tenant, q.groups))
  }

  lemma NoBlockerIff(row: Option<StatusRow>, found: seq<Anomaly>, hidden: nat, missing: nat)
    ensures BlockersFrom(row, found, hidden, missing) == [] <==>
            row.Some? && row.value.completedAt.Some? && HasCutoff(row.value) && found == [] && hidden == missing == 0
  {
  }

  // ---------------------------------------------------------------- the commands

  datatype State = State(row: Option<StatusRow>, store: Store)

  /** A command for the tenant, or anything else that happens to the store. */
  datatype Command =
    | RunBackfill(mode: Mode, now: int, computed: Cutoff, works: seq<Work>)
    | MarkComplete(now: int, works: seq<Work>)
    | Enable(now: int, query: Query)
    | Disable
    | Elsewhere(store: Store)

  /** What a command makes of the tenant's status and of the store; a refused one changes nothing. */
  ghost function Step(tenant: nat, st: State, c: Command): State
    requires Linked(st.store)
  {
    match c
    case RunBackfill(mode, now, computed, works) =>
      State(AfterRun(st.row, mode, computed), Scan(mode, now, st.store, works).store)
    case MarkComplete(now, works) =>
      if st.row.Some? && HasCutoff(st.row.value) && Scan(ValidateOnly, now, st.store, works).report.blocking == []
      then st.(row := Some(st.row.value.(completedAt := Some(now)))) else st
    case Enable(now, q) =>
      if Ready(st.row, st.store, tenant, now, q) && Parity(st.store, q)
      then st.(row := Some(st.row.value.(readAt := Some(now)))) else st
    case Disable => if st.row.Some? then st.(row := Some(st.row.value.(readAt := None))) else st
    case Elsewhere(store) => st.(store := store)
  }

  ghost predicate CommandOk(c: Command) {
    c.Elsewhere? ==> Linked(c.store)
  }

  lemma StepKeepsLinked(tenant: nat, st: State, c: Command)
    requires Linked(st.store) && CommandOk(c)
    ensures Linked(Step(tenant, st, c).store)
  {
    if c.RunBackfill? { ScanGrows(c.mode, c.now, st.store, c.works, (r: Raw) => true); }
  }

  ghost function StepAll(tenant: nat, st: State, cs: seq<Command>): (r: State)
    requires Linked(st.store) && forall k :: 0 <= k < |cs| ==> CommandOk(cs[k])
    ensures Linked(r.store)
  {
    if cs == [] then st
    else
      var before := StepAll(tenant, st, cs[..|cs| - 1]);
      StepKeepsLinked(tenant, before, cs[|cs| - 1]);
      Step(tenant, before, cs[|cs| - 1])
  }

  /** The read flag is on only over a completed backfill with a stored cutoff. */
  predicate FlagOk(row: Option<StatusRow>) {
    row.Some? && row.value.readAt.Some? ==> row.value.completedAt.Some? && HasCutoff(row.value)
  }

  lemma StepKeepsFlag(tenant: nat, st: State, c: Command)
    requires Linked(st.store) && FlagOk(st.row)
    ensures FlagOk(Step(tenant, st, c).row)
    ensures st.row.Some? ==> Step(tenant, st, c).row.Some?
    ensures st.row.Some? && HasCutoff(st.row.value) ==> SameCutoff(st.row.value, Step(tenant, st, c).row.value)
  {
  }

  /** Over every run of commands a stored cutoff never changes, and the read flag implies a
      completed backfill with a stored cutoff. */
  lemma {:induction false} CutoffIsFixed(tenant: nat, st: State, cs: seq<Command>)
    requires Linked(st.store) && FlagOk(st.row) && forall k :: 0 <= k < |cs| ==> CommandOk(cs[k])
    ensures var r := StepAll(tenant, st, cs);
            FlagOk(r.row) && (st.row.Some? ==> r.row.Some?) &&
            (st.row.Some? && HasCutoff(st.row.value) ==> SameCutoff(st.row.value, r.row.value))
  {
    if cs != [] {
      var n := |cs| - 1;
      CutoffIsFixed(tenant, st, cs[..n]);
      StepKeepsFlag(tenant, StepAll(tenant, st, cs[..n]), cs[n]);
    }
  }

  predicate FlagOn(row: Option<StatusRow>) {
    row.Some? && row.value.readAt.Some?
  }

  lemma PrefixOfPrefix(cs: seq<Command>, n: nat, k: nat)
    requires k <= n <= |cs|
    ensures cs[..n][..k] == cs[..k]
  {
  }

  /** The flag read at the end of a run was turned on by an enable in the run: at that moment every
      reservation's two timelines agreed and live validation found nothing. */
  lemma {:induction false} FlagHasEnable(tenant: nat, st: State, cs: seq<Command>) returns (k: nat, at: State)
    requires Linked(st.store) && forall k :: 0 <= k < |cs| ==> CommandOk(cs[k])
    requires !FlagOn(st.row) && FlagOn(StepAll(tenant, st, cs).row)
    ensures k < |cs| && cs[k].Enable? && at == StepAll(tenant, st, cs[..k])
    ensures Parity(at.store, cs[k].query) && Ready(at.row, at.store, tenant, cs[k].now, cs[k].query)
  {
    var n := |cs| - 1;
    var before := LastStep(tenant, st, cs);
    if FlagOn(before.row) {
      k, at := FlagHasEnable(tenant, st, cs[..n]);
      PrefixOfPrefix(cs, n, k);
    } else {
      k, at := n, before;
    }
  }

  lemma LastStep(tenant: nat, st: State, cs: seq<Command>) returns (before: State)
    requires Linked(st.store) && cs != [] && forall k :: 0 <= k < |cs| ==> CommandOk(cs[k])
    ensures before == StepAll(tenant, st, cs[..|cs| - 1]) && Linked(before.store)
    ensures StepAll(tenant, st, cs) == Step(tenant, before, cs[|cs| - 1])
  {
    before := StepAll(tenant, st, cs[..|cs| - 1]);
  }

  // ---------------------------------------------------------------- the row in place

  datatype Answer = Done | NoStoredCutoff | NoStatusRow | ValidationFailed(count: nat) | ParityFailed(count: nat)

  class ReadSwitch {
    const store: StoreRows
    const tenant: nat
    var row: Option<StatusRow>

    function View(): State
      reads this, store
    {
      State(row, store.View())
    }

    constructor (store: StoreRows, tenant: nat)
      ensures this.store == store && this.tenant == tenant && row == None
    {
      this.store, this.tenant, row := store, tenant, None;
    }

    /** Get or create the row; a row whose cutoff is incomplete is given this one. */
    method PersistCutoff(cutoff: Cutoff)
      modifies this`row
      ensures row == AfterRun(old(row), Apply, cutoff)
    {
      if row.None? {
        row := Some(StatusRow(Some(cutoff.at), Some(cutoff.channex), Some(cutoff.whatsapp), Some(cutoff.inbound),
                              Some(cutoff.outbound), None, None));
      }
      if !HasCutoff(row.value) {
        row := Some(WithCutoff(row.value, cutoff));
      }
    }

    method Scan(mode: Mode, now: int, works: seq<Work>) returns (report: Report)
      requires Linked(store.View())
      modifies store
      ensures Progress(store.View(), report) == BackfillPrediction.Scan(mode, now, old(store.View()), works)
    {
      var run := new BackfillRun(store);
      run.ScanTenant(mode, now, works);
      report := run.report;
    }

    method RunBackfill(mode: Mode, now: int, computed: Cutoff, works: seq<Work>) returns (report: Report)
      requires Linked(store.View())
      modifies this`row, store
      ensures View() == Step(tenant, old(View()), Command.RunBackfill(mode, now, computed, works))
      ensures report == BackfillPrediction.Scan(mode, now, old(store.View()), works).report
    {
      if mode == Apply && !(row.Some? && HasCutoff(row.value)) {
        PersistCutoff(computed);
      }
      report := Scan(mode, now, works);
    }

    method MarkComplete(now: int, works: seq<Work>) returns (answer: Answer)
      requires Linked(store.View())
      modifies this`row, store
      ensures View() == Step(tenant, old(View()), Command.MarkComplete(now, works))
      ensures answer == if old(row).None? || !HasCutoff(old(row).value) then NoStoredCutoff else Done
    {
      if row.None? || !HasCutoff(row.value) { return NoStoredCutoff; }
      ScanGrows(ValidateOnly, now, store.View(), works, (r: Raw) => true);
      var report := Scan(ValidateOnly, now, works);
      if report.blocking == [] {
        row := Some(row.value.(completedAt := Some(now)));
      }
      return Done;
    }

    method ValidateCanonicalRead(now: int, q: Query) returns (blocking: seq<Blocker>)
      requires Linked(store.View())
      modifies store
      ensures store.View() == old(store.View())
      ensures blocking == Blockers(row, store.View(), tenant, now, q)
      ensures blocking == [] <==> Ready(row, store.View(), tenant, now, q)
    {
      blocking := if row.None? || row.value.completedAt.None? then [BackfillIncomplete] else [];
      var checked := CheckGroups(now, q);
      var hidden := CountVisibleWithoutSource(store.View(), tenant);
      var missing := CountRawsWithoutSource(store.View(), tenant, q.groups);
      ghost var found := BackfillPrediction.Scan(ValidateOnly, now, store.View(), q.works).report.blocking;
      blocking := blocking + checked;
      if hidden != 0 { blocking := blocking + [VisibleWithoutSource(hidden)]; }
      if missing != 0 { blocking := blocking + [RawWithoutSource(missing)]; }
      assert blocking == BlockersFrom(row, found, hidden, missing);
      NoBlockerIff(row, found, hidden, missing);
    }

    /** The validation scan of the groups before the cutoff, when there is one. */
    method CheckGroups(now: int, q: Query) returns (blocking: seq<Blocker>)
      requires Linked(store.View())
      modifies store
      ensures store.View() == old(store.View())
      ensures blocking ==
              ScanBlockers(row, BackfillPrediction.Scan(ValidateOnly, now, store.View(), q.works).report.blocking)
    {
      if row.None? || !HasCutoff(row.value) { return [CutoffMissing]; }
      ScanGrows(ValidateOnly, now, store.View(), q.works, (r: Raw) => true);
      var report := Scan(ValidateOnly, now, q.works);
      blocking := AllReported(report.blocking);
    }

    method Enable(now: int, q: Query) returns (answer: Answer)
      requires Linked(store.View())
      modifies this`row, store
      ensures View() == Step(tenant, old(View()), Command.Enable(now, q))
      ensures answer == Done <==> Ready(old(row), old(store.View()), tenant, now, q) && Parity(old(store.View()), q)
      ensures answer == NoStatusRow <==> old(row).None?
      ensures answer.ValidationFailed? ==> answer.count == |Blockers(old(row), old(store.View()), tenant, now, q)| > 0
      ensures answer.ParityFailed? ==> answer.count == |Collect(Findings(old(store.View()), q))| > 0
    {
      if row.None? { return NoStatusRow; }
      var blocking := ValidateCanonicalRead(now, q);
      if blocking != [] { return ValidationFailed(|blocking|); }
      var _, mismatches := CompareParity(store.View(), q);
      if mismatches != [] { return ParityFailed(|mismatches|); }
      row := Some(row.value.(readAt := Some(now)));
      return Done;
    }

    method Disable()
      requires Linked(store.View())
      modifies this`row
      ensures View() == Step(tenant, old(View()), Command.Disable)
    {
      if row.Some? {
        row := Some(row.value.(readAt := None));
      }
    }
  }
}
