/** Reading the canonical store back as timeline entries, for one reservation and for many at once. */
module CanonicalTimeline {
  import opened Wrappers
  import opened Strings
  import opened CanonicalModel
  import opened CanonicalStore

  /** A JSON value; looking up an absent key gives NoneValue, as `dict.get` does. */
  datatype Value = NoneValue | Text(text: string) | Number(number: int) | Values(values: seq<Value>)

  type Entry = map<string, Value>

  /** A document intake job; `whatsapp` is its nullable foreign key. */
  datatype Job = Job(pk: nat, whatsapp: Option<nat>)

  /** What the serializers and the merge of display items do; any functions at all. */
  datatype Display = Display(
    mirrors: (Raw, seq<Raw>) -> bool,
    channexVisible: Raw -> bool,
    bodyText: Raw -> string,
    outbound: Raw -> Entry,
    whatsapp: (Raw, Option<nat>) -> Entry,
    channex: Raw -> Entry,
    inbound: Raw -> Entry,
    merge: seq<Entry> -> Entry)

  // ---------------------------------------------------------------- one message

  function Get(jobs: map<nat, nat>, pk: nat): Option<nat> {
    if pk in jobs then Some(jobs[pk]) else None
  }

  function DisplayItem(d: Display, raw: Raw, wa: seq<Raw>, jobs: map<nat, nat>): Option<Entry> {
    match raw.key.kind
    case Outbound =>
      if raw.channel == Some(WhatsAppChat) && raw.status == SendSent && d.mirrors(raw, wa) then None
      else Some(d.outbound(raw))
    case WhatsApp => Some(d.whatsapp(raw, Get(jobs, raw.key.pk)))
    case Channex => if d.channexVisible(raw) then Some(d.channex(raw)) else None
    case Inbound => if Strip(d.bodyText(raw)) != "" then Some(d.inbound(raw)) else None
  }

  function DisplayItems(d: Display, raws: seq<Raw>, wa: seq<Raw>, jobs: map<nat, nat>): seq<Entry> {
    if raws == [] then []
    else
      var item := DisplayItem(d, raws[|raws| - 1], wa, jobs);
      DisplayItems(d, raws[..|raws| - 1], wa, jobs) + if item.Some? then [item.value] else []
  }

  function Serialize(d: Display, s: Store, m: nat, wa: seq<Raw>, jobs: map<nat, nat>): Option<Entry> {
    var items := DisplayItems(d, SourcesOf(s.sources, m), wa, jobs);
    if items == [] then None else Some(d.merge(items)["canonical_id" := Number(m)])
  }

  function TimelineOf(d: Display, s: Store, ids: seq<nat>, wa: seq<Raw>, jobs: map<nat, nat>): seq<Entry> {
    if ids == [] then []
    else
      var item := Serialize(d, s, ids[|ids| - 1], wa, jobs);
      TimelineOf(d, s, ids[..|ids| - 1], wa, jobs) + if item.Some? then [item.value] else []
  }

  // ---------------------------------------------------------------- whatsapp rows and jobs

  predicate IsWa(raw: Raw) { raw.key.kind == WhatsApp }

  /** The WhatsApp rows among the raw rows, each pk once, at its first place. */
  function DistinctWa(raws: seq<Raw>): (r: seq<Raw>) {
    if raws == [] then []
    else
      var before, raw := DistinctWa(raws[..|raws| - 1]), raws[|raws| - 1];
      if IsWa(raw) && !HasPk(before, raw.key.pk) then before + [raw] else before
  }

  predicate HasPk(raws: seq<Raw>, pk: nat) {
    exists i :: 0 <= i < |raws| && raws[i].key.pk == pk
  }

  /** The WhatsApp rows among the raw rows, as they come. */
  function AllWa(raws: seq<Raw>): (r: seq<Raw>)
    ensures forall i :: 0 <= i < |r| ==> IsWa(r[i]) && r[i] in raws
  {
    if raws == [] then []
    else
      assert raws == raws[..|raws| - 1] + [raws[|raws| - 1]];
      AllWa(raws[..|raws| - 1]) + if IsWa(raws[|raws| - 1]) then [raws[|raws| - 1]] else []
  }

  /** The sources of all the messages, one message after the other. */
  function SourcesOfAll(sources: seq<Source>, ids: seq<nat>): seq<Raw> {
    if ids == [] then []
    else SourcesOfAll(sources, ids[..|ids| - 1]) + SourcesOf(sources, ids[|ids| - 1])
  }

  function WaPks(raws: seq<Raw>): (r: set<nat>)
    ensures forall pk :: pk in r <==> HasPk(raws, pk)
  {
    set i | 0 <= i < |raws| :: raws[i].key.pk
  }

  /** The job that a dict comprehension over the jobs in table order leaves for each wanted row. */
  function JobsFor(table: seq<Job>, pks: set<nat>): (jobs: map<nat, nat>) {
    if table == [] then map[]
    else
      var before, last := JobsFor(table[..|table| - 1], pks), table[|table| - 1];
      if last.whatsapp.Some? && last.whatsapp.value != 0 && last.whatsapp.value in pks
      then before[last.whatsapp.value := last.pk] else before
  }

  // ---------------------------------------------------------------- one reservation

  predicate ShownIn(s: Store, pks: set<nat>, m: nat) {
    m < |s.messages| && s.messages[m].visible && s.messages[m].conversation < |s.conversations| &&
    s.conversations[s.messages[m].conversation].reservation.pk in pks
  }

  /** visible_guest_messages_qs: the visible messages of these reservations by time and pk. */
  function VisibleIds(s: Store, pks: set<nat>): (ids: seq<nat>)
    ensures forall m :: m in ids <==> ShownIn(s, pks, m)
  {
    OrderedIds(s.messages, (m: nat) => ShownIn(s, pks, m), |s.messages|)
  }

  /** canonical_timeline_for_reservation */
  function TimelineFor(d: Display, s: Store, table: seq<Job>, pk: nat): seq<Entry> {
    var ids := VisibleIds(s, {pk});
    var wa := DistinctWa(SourcesOfAll(s.sources, ids));
    TimelineOf(d, s, ids, wa, JobsFor(table, WaPks(wa)))
  }

  // ---------------------------------------------------------------- the loops

  method DisplayItemsForMessage(d: Display, s: Store, m: nat, wa: seq<Raw>, jobs: map<nat, nat>)
    returns (display: seq<Entry>)
    ensures display == DisplayItems(d, SourcesOf(s.sources, m), wa, jobs)
  {
    display := [];
    var raws := SourcesOf(s.sources, m);
    for i := 0 to |raws|
      invariant display == DisplayItems(d, raws[..i], wa, jobs)
    {
      assert raws[..i + 1][..i] == raws[..i];
      var raw := raws[i];
      match raw.key.kind {
        case Outbound =>
          if raw.channel == Some(WhatsAppChat) && raw.status == SendSent && d.mirrors(raw, wa) { continue; }
          display := display + [d.outbound(raw)];
        case WhatsApp =>
          display := display + [d.whatsapp(raw, Get(jobs, raw.key.pk))];
        case Channex =>
          if d.channexVisible(raw) { display := display + [d.channex(raw)]; }
        case Inbound =>
          if Strip(d.bodyText(raw)) != "" { display := display + [d.inbound(raw)]; }
      }
    }
    assert raws[..|raws|] == raws;
  }

  lemma DistinctNext(raws: seq<Raw>, raw: Raw)
    ensures DistinctWa(raws + [raw]) ==
            if IsWa(raw) && !HasPk(DistinctWa(raws), raw.key.pk) then DistinctWa(raws) + [raw] else DistinctWa(raws)
  {
    assert (raws + [raw])[..|raws|] == raws;
  }

  lemma PkAdded(raws: seq<Raw>, raw: Raw)
    ensures forall pk :: HasPk(raws + [raw], pk) <==> HasPk(raws, pk) || pk == raw.key.pk
  {
    forall pk ensures HasPk(raws + [raw], pk) <==> HasPk(raws, pk) || pk == raw.key.pk {
      assert forall j :: 0 <= j < |raws| ==> (raws + [raw])[j] == raws[j];
      assert (raws + [raw])[|raws|] == raw;
    }
  }

  ghost predicate Seen(seen: set<nat>, rows: seq<Raw>) {
    forall pk :: pk in seen <==> HasPk(rows, pk)
  }

  /** One round of the inner loop; `done` are the sources looked at before. */
  method AddRow(raw: Raw, rows: seq<Raw>, seen: set<nat>, ghost done: seq<Raw>)
    returns (rows': seq<Raw>, seen': set<nat>)
    requires rows == DistinctWa(done) && Seen(seen, rows)
    ensures rows' == DistinctWa(done + [raw]) && Seen(seen', rows')
  {
    rows', seen' := rows, seen;
    DistinctNext(done, raw);
    if IsWa(raw) && raw.key.pk !in seen {
      PkAdded(rows, raw);
      seen' := seen + {raw.key.pk};
      rows' := rows + [raw];
    }
  }

  /** The inner loop over one message's sources; `front` are the sources looked at before. */
  method AddRows(raws: seq<Raw>, rows: seq<Raw>, seen: set<nat>, ghost front: seq<Raw>)
    returns (rows': seq<Raw>, seen': set<nat>)
    requires rows == DistinctWa(front) && Seen(seen, rows)
    ensures rows' == DistinctWa(front + raws) && Seen(seen', rows')
  {
    rows', seen' := rows, seen;
    ghost var done := front;
    for i := 0 to |raws|
      invariant done == front + raws[..i]
      invariant rows' == DistinctWa(done) && Seen(seen', rows')
    {
      rows', seen' := AddRow(raws[i], rows', seen', done);
      done := done + [raws[i]];
    }
    assert done == front + raws;
  }

  method WhatsappRowsFromMessages(s: Store, ids: seq<nat>) returns (rows: seq<Raw>)
    ensures rows == DistinctWa(SourcesOfAll(s.sources, ids))
  {
    rows := [];
    var seen: set<nat> := {};
    for k := 0 to |ids|
      invariant rows == DistinctWa(SourcesOfAll(s.sources, ids[..k])) && Seen(seen, rows)
    {
      assert ids[..k + 1][..k] == ids[..k];
      rows, seen := AddRows(SourcesOf(s.sources, ids[k]), rows, seen, SourcesOfAll(s.sources, ids[..k]));
    }
    assert ids[..|ids|] == ids;
  }

  method TimelineForMessages(d: Display, s: Store, ids: seq<nat>, wa: seq<Raw>, jobs: map<nat, nat>)
    returns (timeline: seq<Entry>)
    ensures timeline == TimelineOf(d, s, ids, wa, jobs)
  {
    timeline := [];
    for k := 0 to |ids|
      invariant timeline == TimelineOf(d, s, ids[..k], wa, jobs)
    {
      assert ids[..k + 1][..k] == ids[..k];
      var items := DisplayItemsForMessage(d, s, ids[k], wa, jobs);
      if items != [] {
        timeline := timeline + [d.merge(items)["canonical_id" := Number(ids[k])]];
      }
    }
    assert ids[..|ids|] == ids;
  }

  /** canonical_timeline_for_reservation */
  method TimelineForReservation(d: Display, s: Store, table: seq<Job>, pk: nat) returns (timeline: seq<Entry>)
    ensures timeline == TimelineFor(d, s, table, pk)
  {
    var ids := VisibleIds(s, {pk});
    var wa := WhatsappRowsFromMessages(s, ids);
    timeline := TimelineForMessages(d, s, ids, wa, JobsFor(table, WaPks(wa)));
  }

  // ---------------------------------------------------------------- splitting the sorted messages

  function ReservationOf(s: Store, m: nat): nat {
    if m < |s.messages| && s.messages[m].conversation < |s.conversations|
    then s.conversations[s.messages[m].conversation].reservation.pk else 0
  }

  /** The ids that belong to one reservation, in the order they come. */
  function Split(s: Store, ids: seq<nat>, pk: nat): (r: seq<nat>)
    ensures forall m :: m in r <==> m in ids && ReservationOf(s, m) == pk
  {
    if ids == [] then []
    else
      assert ids == [ids[0]] + ids[1..];
      (if ReservationOf(s, ids[0]) == pk then [ids[0]] else []) + Split(s, ids[1..], pk)
  }

  /** A query's order leaves no choice: two ordered lists of the same ids are the same list. */
  lemma {:induction false} OrderedListsAgree(messages: seq<Message>, a: seq<nat>, b: seq<nat>)
    requires Ordered(messages, a) && Ordered(messages, b) && forall m :: m in a <==> m in b
    ensures a == b
  {
    assert a != [] ==> a[0] in a;
    assert b != [] ==> b[0] in b;
    if a != [] {
      FirstComesFirst(messages, a, b[0]);
      FirstComesFirst(messages, b, a[0]);
      forall m ensures m in a[1..] <==> m in b[1..] {
        RestOf(messages, a, m);
        RestOf(messages, b, m);
      }
      OrderedListsAgree(messages, a[1..], b[1..]);
    }
  }

  lemma FirstComesFirst(messages: seq<Message>, a: seq<nat>, x: nat)
    requires Ordered(messages, a) && x in a
    ensures a[0] == x || (x < |messages| && Before(messages, a[0], x))
  {
    var i :| 0 <= i < |a| && a[i] == x;
  }

  lemma RestOf(messages: seq<Message>, a: seq<nat>, m: nat)
    requires Ordered(messages, a) && a != []
    ensures m in a[1..] <==> m in a && m != a[0]
  {
    if m in a[1..] {
      var i :| 0 <= i < |a[1..]| && a[1..][i] == m;
      assert Before(messages, a[0], a[i + 1]);
    }
  }

  lemma {:induction false} SplitKeepsOrder(s: Store, ids: seq<nat>, pk: nat)
    requires Ordered(s.messages, ids)
    ensures Ordered(s.messages, Split(s, ids, pk))
  {
    if ids != [] {
      SplitKeepsOrder(s, ids[1..], pk);
      var rest := Split(s, ids[1..], pk);
      forall i | 0 <= i < |rest| ensures Before(s.messages, ids[0], rest[i]) {
        assert rest[i] in rest;
        var j :| 0 <= j < |ids[1..]| && ids[1..][j] == rest[i];
        assert Before(s.messages, ids[0], ids[j + 1]);
      }
    }
  }

  lemma VisibleOrdered(s: Store, pks: set<nat>)
    ensures Ordered(s.messages, VisibleIds(s, pks))
  {
    OrderedIdsAreOrdered(s.messages, (m: nat) => ShownIn(s, pks, m), |s.messages|);
  }

  /** Splitting the globally sorted messages by reservation is sorting each reservation's messages. */
  lemma SplitIsQuery(s: Store, pks: set<nat>, pk: nat)
    requires pk in pks
    ensures Split(s, VisibleIds(s, pks), pk) == VisibleIds(s, {pk})
  {
    VisibleOrdered(s, pks);
    VisibleOrdered(s, {pk});
    SplitKeepsOrder(s, VisibleIds(s, pks), pk);
    OrderedListsAgree(s.messages, Split(s, VisibleIds(s, pks), pk), VisibleIds(s, {pk}));
  }

  // ---------------------------------------------------------------- the WhatsApp rows of one reservation

  ghost predicate DistinctKeys(raws: seq<Raw>) {
    forall i, j :: 0 <= i < j < |raws| ==> raws[i].key != raws[j].key
  }

  /** Every raw row of the list is a source of one of the messages. */
  ghost predicate FromSources(s: Store, raws: seq<Raw>, ids: seq<nat>) {
    forall i :: 0 <= i < |raws| ==> IsSourceOf(s, raws[i], ids)
  }

  ghost predicate IsSourceOf(s: Store, raw: Raw, ids: seq<nat>) {
    exists k :: 0 <= k < |s.sources| && s.sources[k].raw == raw && s.sources[k].message in ids
  }

  ghost predicate FromBelow(s: Store, raw: Raw, m: nat, n: nat) {
    exists k :: 0 <= k < n && k < |s.sources| && s.sources[k].raw == raw && s.sources[k].message == m
  }

  lemma {:induction false} SourcesOfDistinct(s: Store, m: nat, n: nat)
    requires UniqueKeys(s) && n <= |s.sources|
    ensures var raws := SourcesOf(s.sources[..n], m);
            DistinctKeys(raws) && forall i :: 0 <= i < |raws| ==> FromBelow(s, raws[i], m, n)
  {
    if n > 0 {
      assert s.sources[..n][..n - 1] == s.sources[..n - 1];
      SourcesOfDistinct(s, m, n - 1);
      var front, raws := SourcesOf(s.sources[..n - 1], m), SourcesOf(s.sources[..n], m);
      forall i | 0 <= i < |front| ensures FromBelow(s, front[i], m, n) && front[i].key != s.sources[n - 1].raw.key {
        var k :| 0 <= k < n - 1 && s.sources[k].raw == front[i] && s.sources[k].message == m;
      }
      assert s.sources[n - 1].message == m ==> FromBelow(s, s.sources[n - 1].raw, m, n);
    }
  }

  lemma {:induction false} SourcesOfAllDistinct(s: Store, ids: seq<nat>)
    requires UniqueKeys(s) && forall i, j :: 0 <= i < j < |ids| ==> ids[i] != ids[j]
    ensures DistinctKeys(SourcesOfAll(s.sources, ids)) && FromSources(s, SourcesOfAll(s.sources, ids), ids)
  {
    if ids != [] {
      var n := |ids| - 1;
      SourcesOfAllDistinct(s, ids[..n]);
      SourcesOfDistinct(s, ids[n], |s.sources|);
      assert s.sources[..|s.sources|] == s.sources;
      ConcatDistinct(s, SourcesOfAll(s.sources, ids[..n]), SourcesOf(s.sources, ids[n]), ids);
    }
  }

  lemma ConcatDistinct(s: Store, a: seq<Raw>, b: seq<Raw>, ids: seq<nat>)
    requires UniqueKeys(s) && ids != [] && ids[|ids| - 1] !in ids[..|ids| - 1]
    requires DistinctKeys(a) && FromSources(s, a, ids[..|ids| - 1])
    requires DistinctKeys(b) && forall i :: 0 <= i < |b| ==> FromBelow(s, b[i], ids[|ids| - 1], |s.sources|)
    ensures DistinctKeys(a + b) && FromSources(s, a + b, ids)
  {
    var n := |ids| - 1;
    forall i, j | 0 <= i < |a| && 0 <= j < |b| ensures a[i].key != b[j].key {
      assert IsSourceOf(s, a[i], ids[..n]);
      var k :| 0 <= k < |s.sources| && s.sources[k].raw == a[i] && s.sources[k].message in ids[..n];
      var l :| 0 <= l < |s.sources| && s.sources[l].raw == b[j] && s.sources[l].message == ids[n];
    }
    forall i | 0 <= i < |a + b| ensures IsSourceOf(s, (a + b)[i], ids) {
      if i < |a| {
        assert IsSourceOf(s, a[i], ids[..n]);
        var k :| 0 <= k < |s.sources| && s.sources[k].raw == a[i] && s.sources[k].message in ids[..n];
        assert s.sources[k].message in ids;
      } else {
        var l :| 0 <= l < |s.sources| && s.sources[l].raw == b[i - |a|] && s.sources[l].message == ids[n];
      }
    }
  }

  /** With one source per WhatsApp row, leaving out repeated rows leaves out nothing. */
  lemma {:induction false} NothingRepeats(raws: seq<Raw>)
    requires DistinctKeys(raws)
    ensures DistinctWa(raws) == AllWa(raws)
  {
    if raws != [] {
      var n := |raws| - 1;
      NothingRepeats(raws[..n]);
    }
  }

  // ---------------------------------------------------------------- the jobs of one reservation

  /** The last job of the table for a WhatsApp row. */
  function LastJob(table: seq<Job>, pk: nat): Option<nat> {
    if table == [] then None
    else if table[|table| - 1].whatsapp == Some(pk) then Some(table[|table| - 1].pk)
    else LastJob(table[..|table| - 1], pk)
  }

  lemma {:induction false} JobsAreLast(table: seq<Job>, pks: set<nat>, pk: nat)
    requires pk in pks && pk != 0
    ensures Get(JobsFor(table, pks), pk) == LastJob(table, pk)
  {
    if table != [] { JobsAreLast(table[..|table| - 1], pks, pk); }
  }

  /** The two job dicts answer alike for every WhatsApp row of the list. */
  ghost predicate SameJobs(raws: seq<Raw>, jobs: map<nat, nat>, jobs': map<nat, nat>) {
    forall i :: 0 <= i < |raws| && IsWa(raws[i]) ==> Get(jobs, raws[i].key.pk) == Get(jobs', raws[i].key.pk)
  }

  lemma {:induction false} SameJobsSameItems(d: Display, raws: seq<Raw>, wa: seq<Raw>, jobs: map<nat, nat>,
                                             jobs': map<nat, nat>)
    requires SameJobs(raws, jobs, jobs')
    ensures DisplayItems(d, raws, wa, jobs) == DisplayItems(d, raws, wa, jobs')
  {
    if raws != [] { SameJobsSameItems(d, raws[..|raws| - 1], wa, jobs, jobs'); }
  }

  lemma {:induction false} SameJobsSameTimeline(d: Display, s: Store, ids: seq<nat>, wa: seq<Raw>, jobs: map<nat, nat>,
                                                jobs': map<nat, nat>)
    requires SameJobs(SourcesOfAll(s.sources, ids), jobs, jobs')
    ensures TimelineOf(d, s, ids, wa, jobs) == TimelineOf(d, s, ids, wa, jobs')
  {
    if ids != [] {
      var n := |ids| - 1;
      var front, last := SourcesOfAll(s.sources, ids[..n]), SourcesOf(s.sources, ids[n]);
      assert forall i :: 0 <= i < |front| ==> (front + last)[i] == front[i];
      assert forall i :: 0 <= i < |last| ==> (front + last)[|front| + i] == last[i];
      SameJobsSameTimeline(d, s, ids[..n], wa, jobs, jobs');
      SameJobsSameItems(d, last, wa, jobs, jobs');
    }
  }

  lemma {:induction false} WaIsListed(raws: seq<Raw>, i: nat)
    requires i < |raws| && IsWa(raws[i])
    ensures HasPk(DistinctWa(raws), raws[i].key.pk)
  {
    var n := |raws| - 1;
    DistinctGrows(raws[..n], raws[n]);
    assert raws[..n] + [raws[n]] == raws;
    if i < n {
      WaIsListed(raws[..n], i);
      var j :| 0 <= j < |DistinctWa(raws[..n])| && DistinctWa(raws[..n])[j].key.pk == raws[i].key.pk;
      assert DistinctWa(raws)[j] == DistinctWa(raws[..n])[j];
    } else if !HasPk(DistinctWa(raws[..n]), raws[n].key.pk) {
      assert DistinctWa(raws)[|DistinctWa(raws[..n])|] == raws[n];
    } else {
      var j :| 0 <= j < |DistinctWa(raws[..n])| && DistinctWa(raws[..n])[j].key.pk == raws[n].key.pk;
      assert DistinctWa(raws)[j] == DistinctWa(raws[..n])[j];
    }
  }

  lemma DistinctGrows(raws: seq<Raw>, raw: Raw)
    ensures DistinctWa(raws) <= DistinctWa(raws + [raw])
  {
    DistinctNext(raws, raw);
  }

  /** Primary keys start at one. */
  ghost predicate PksPositive(s: Store) {
    forall i :: 0 <= i < |s.sources| ==> s.sources[i].raw.key.pk > 0
  }

  // ---------------------------------------------------------------- the batch

  /** What the batch gives one of its reservations: all visible messages sorted together and split. */
  function BatchTimeline(d: Display, s: Store, table: seq<Job>, pks: set<nat>, pk: nat): seq<Entry> {
    var all := VisibleIds(s, pks);
    var ids := Split(s, all, pk);
    TimelineOf(d, s, ids, AllWa(SourcesOfAll(s.sources, ids)),
               JobsFor(table, WaPks(DistinctWa(SourcesOfAll(s.sources, all)))))
  }

  lemma VisibleDistinct(s: Store, pks: set<nat>)
    ensures var ids := VisibleIds(s, pks); forall i, j :: 0 <= i < j < |ids| ==> ids[i] != ids[j]
  {
    VisibleOrdered(s, pks);
    var ids := VisibleIds(s, pks);
    forall i, j | 0 <= i < j < |ids| ensures ids[i] != ids[j] {
      assert Before(s.messages, ids[i], ids[j]);
    }
  }

  lemma ListedIn(s: Store, ids: seq<nat>, raw: Raw)
    requires IsWa(raw) && raw in SourcesOfAll(s.sources, ids)
    ensures raw.key.pk in WaPks(DistinctWa(SourcesOfAll(s.sources, ids)))
  {
    var raws := SourcesOfAll(s.sources, ids);
    var i :| 0 <= i < |raws| && raws[i] == raw;
    WaIsListed(raws, i);
  }

  lemma {:induction false} SourcesOfPart(s: Store, ids: seq<nat>, m: nat, raw: Raw)
    requires m in ids && raw in SourcesOf(s.sources, m)
    ensures raw in SourcesOfAll(s.sources, ids)
  {
    var n := |ids| - 1;
    if m in ids[..n] { SourcesOfPart(s, ids[..n], m, raw); }
  }

  lemma {:induction false} PartOf(s: Store, ids: seq<nat>, raw: Raw) returns (m: nat)
    requires raw in SourcesOfAll(s.sources, ids)
    ensures m in ids && raw in SourcesOf(s.sources, m)
  {
    var n := |ids| - 1;
    if raw in SourcesOf(s.sources, ids[n]) { m := ids[n]; } else { m := PartOf(s, ids[..n], raw); }
  }

  /** The batch's jobs and the reservation's own jobs agree on the reservation's rows. */
  lemma JobsAgree(s: Store, table: seq<Job>, pks: set<nat>, pk: nat)
    requires UniqueKeys(s) && PksPositive(s) && pk in pks
    ensures var ids := VisibleIds(s, {pk});
            SameJobs(SourcesOfAll(s.sources, ids),
                     JobsFor(table, WaPks(DistinctWa(SourcesOfAll(s.sources, VisibleIds(s, pks))))),
                     JobsFor(table, WaPks(DistinctWa(SourcesOfAll(s.sources, ids)))))
  {
    var all, ids := VisibleIds(s, pks), VisibleIds(s, {pk});
    var raws := SourcesOfAll(s.sources, ids);
    VisibleDistinct(s, {pk});
    SourcesOfAllDistinct(s, ids);
    forall i | 0 <= i < |raws| && IsWa(raws[i])
      ensures Get(JobsFor(table, WaPks(DistinctWa(SourcesOfAll(s.sources, all)))), raws[i].key.pk)
           == Get(JobsFor(table, WaPks(DistinctWa(raws))), raws[i].key.pk)
    {
      assert raws[i] in raws && IsSourceOf(s, raws[i], ids);
      var m := PartOf(s, ids, raws[i]);
      SourcesOfPart(s, all, m, raws[i]);
      ListedIn(s, ids, raws[i]);
      ListedIn(s, all, raws[i]);
      JobsAreLast(table, WaPks(DistinctWa(SourcesOfAll(s.sources, all))), raws[i].key.pk);
      JobsAreLast(table, WaPks(DistinctWa(raws)), raws[i].key.pk);
    }
  }

  /** The batch gives each of its reservations exactly the timeline it has on its own. */
  lemma BatchRefinesSimple(d: Display, s: Store, table: seq<Job>, pks: set<nat>, pk: nat)
    requires UniqueKeys(s) && PksPositive(s) && pk in pks
    ensures BatchTimeline(d, s, table, pks, pk) == TimelineFor(d, s, table, pk)
  {
    var all, ids := VisibleIds(s, pks), VisibleIds(s, {pk});
    SplitIsQuery(s, pks, pk);
    VisibleDistinct(s, {pk});
    SourcesOfAllDistinct(s, ids);
    NothingRepeats(SourcesOfAll(s.sources, ids));
    JobsAgree(s, table, pks, pk);
    SameJobsSameTimeline(d, s, ids, AllWa(SourcesOfAll(s.sources, ids)),
                         JobsFor(table, WaPks(DistinctWa(SourcesOfAll(s.sources, all)))),
                         JobsFor(table, WaPks(DistinctWa(SourcesOfAll(s.sources, ids)))));
  }

  // ---------------------------------------------------------------- the batch loops

  function PksOf(reservations: seq<nat>): set<nat> {
    set pk | pk in reservations
  }

  function At<T>(parts: map<nat, seq<T>>, pk: nat): seq<T> {
    if pk in parts then parts[pk] else []
  }

  lemma AtUpdated<T>(parts: map<nat, seq<T>>, pk: nat, part: seq<T>, x: nat)
    ensures At(parts[pk := part], x) == if x == pk then part else At(parts, x)
  {
  }

  ghost predicate SplitInto(s: Store, ids: seq<nat>, parts: map<nat, seq<nat>>) {
    forall pk {:trigger At(parts, pk)} :: At(parts, pk) == Split(s, ids, pk)
  }

  lemma SplitIntoNext(s: Store, front: seq<nat>, m: nat, parts: map<nat, seq<nat>>)
    requires SplitInto(s, front, parts)
    ensures var pk := ReservationOf(s, m); SplitInto(s, front + [m], parts[pk := At(parts, pk) + [m]])
  {
    var pk := ReservationOf(s, m);
    var parts' := parts[pk := At(parts, pk) + [m]];
    forall x ensures At(parts', x) == Split(s, front + [m], x) {
      SplitNext(s, front, m, x);
      AtUpdated(parts, pk, At(parts, pk) + [m], x);
      assert At(parts, x) == Split(s, front, x);
      assert Split(s, front, x) + [] == Split(s, front, x);
    }
  }

  method GroupByReservation(s: Store, ids: seq<nat>) returns (parts: map<nat, seq<nat>>)
    ensures SplitInto(s, ids, parts)
  {
    parts := map[];
    for k := 0 to |ids|
      invariant SplitInto(s, ids[..k], parts)
    {
      SplitIntoNext(s, ids[..k], ids[k], parts);
      assert ids[..k] + [ids[k]] == ids[..k + 1];
      var pk := ReservationOf(s, ids[k]);
      parts := parts[pk := At(parts, pk) + [ids[k]]];
    }
    assert ids[..|ids|] == ids;
  }

  lemma {:induction false} SplitNext(s: Store, front: seq<nat>, m: nat, pk: nat)
    ensures Split(s, front + [m], pk) == Split(s, front, pk) + if ReservationOf(s, m) == pk then [m] else []
  {
    if front != [] {
      assert (front + [m])[1..] == front[1..] + [m];
      SplitNext(s, front[1..], m, pk);
    }
  }

  /** What the second loop collects for one reservation. */
  function WaFor(s: Store, ids: seq<nat>, pk: nat): seq<Raw> {
    AllWa(SourcesOfAll(s.sources, Split(s, ids, pk)))
  }

  lemma {:induction false} AllWaConcat(a: seq<Raw>, b: seq<Raw>)
    ensures AllWa(a + b) == AllWa(a) + AllWa(b)
  {
    if b == [] {
      assert a + b == a;
    } else {
      assert (a + b)[..|a + b| - 1] == a + b[..|b| - 1];
      AllWaConcat(a, b[..|b| - 1]);
    }
  }

  lemma WaForNext(s: Store, front: seq<nat>, m: nat, pk: nat)
    ensures WaFor(s, front + [m], pk) ==
            WaFor(s, front, pk) + if ReservationOf(s, m) == pk then AllWa(SourcesOf(s.sources, m)) else []
  {
    SplitNext(s, front, m, pk);
    var part := Split(s, front, pk);
    if ReservationOf(s, m) == pk {
      assert (part + [m])[..|part|] == part;
      AllWaConcat(SourcesOfAll(s.sources, part), SourcesOf(s.sources, m));
    } else {
      assert part + [] == part;
    }
  }

  /** The rows of one message, appended to what its reservation has so far. */
  method CollectWa(raws: seq<Raw>, sofar: seq<Raw>) returns (rows: seq<Raw>)
    ensures rows == sofar + AllWa(raws)
  {
    rows := sofar;
    for i := 0 to |raws|
      invariant rows == sofar + AllWa(raws[..i])
    {
      assert raws[..i + 1][..i] == raws[..i];
      if IsWa(raws[i]) { rows := rows + [raws[i]]; }
    }
    assert raws[..|raws|] == raws;
  }

  ghost predicate WaInto(s: Store, ids: seq<nat>, parts: map<nat, seq<Raw>>) {
    forall pk {:trigger At(parts, pk)} :: At(parts, pk) == WaFor(s, ids, pk)
  }

  lemma WaIntoNext(s: Store, front: seq<nat>, m: nat, parts: map<nat, seq<Raw>>, rows: seq<Raw>)
    requires WaInto(s, front, parts) && rows == At(parts, ReservationOf(s, m)) + AllWa(SourcesOf(s.sources, m))
    ensures WaInto(s, front + [m], parts[ReservationOf(s, m) := rows])
  {
    var pk := ReservationOf(s, m);
    forall x ensures At(parts[pk := rows], x) == WaFor(s, front + [m], x) {
      WaForNext(s, front, m, x);
      AtUpdated(parts, pk, rows, x);
      assert At(parts, x) == WaFor(s, front, x);
      assert WaFor(s, front, x) + [] == WaFor(s, front, x);
    }
  }

  method WaByReservation(s: Store, ids: seq<nat>) returns (parts: map<nat, seq<Raw>>)
    ensures WaInto(s, ids, parts)
  {
    parts := map[];
    for k := 0 to |ids|
      invariant WaInto(s, ids[..k], parts)
    {
      var pk := ReservationOf(s, ids[k]);
      var rows := CollectWa(SourcesOf(s.sources, ids[k]), At(parts, pk));
      WaIntoNext(s, ids[..k], ids[k], parts, rows);
      assert ids[..k] + [ids[k]] == ids[..k + 1];
      parts := parts[pk := rows];
    }
    assert ids[..|ids|] == ids;
  }

  /** One round of the batch's last loop. */
  method TimelineFromBatch(d: Display, s: Store, table: seq<Job>, pks: set<nat>, pk: nat,
                           parts: map<nat, seq<nat>>, wa: map<nat, seq<Raw>>, jobs: map<nat, nat>)
    returns (timeline: seq<Entry>)
    requires UniqueKeys(s) && PksPositive(s) && pk in pks
    requires SplitInto(s, VisibleIds(s, pks), parts) && WaInto(s, VisibleIds(s, pks), wa)
    requires jobs == JobsFor(table, WaPks(DistinctWa(SourcesOfAll(s.sources, VisibleIds(s, pks)))))
    ensures timeline == TimelineFor(d, s, table, pk)
  {
    timeline := TimelineForMessages(d, s, At(parts, pk), At(wa, pk), jobs);
    BatchRefinesSimple(d, s, table, pks, pk);
  }

  lemma PksNext(reservations: seq<nat>, k: nat)
    requires k < |reservations|
    ensures PksOf(reservations[..k + 1]) == PksOf(reservations[..k]) + {reservations[k]}
  {
    assert reservations[..k + 1] == reservations[..k] + [reservations[k]];
  }

  /** canonical_timelines_by_reservation: for every store and list of reservations, each gets
      exactly the timeline that canonical_timeline_for_reservation gives it. */
  method TimelinesByReservation(d: Display, s: Store, table: seq<Job>, reservations: seq<nat>)
    returns (result: map<nat, seq<Entry>>)
    requires UniqueKeys(s) && PksPositive(s)
    ensures result.Keys == PksOf(reservations)
    ensures forall pk :: pk in reservations ==> result[pk] == TimelineFor(d, s, table, pk)
  {
    result := map[];
    if reservations == [] {
      return;
    }
    var pks := PksOf(reservations);
    var all := VisibleIds(s, pks);
    var parts := GroupByReservation(s, all);
    var rows := WhatsappRowsFromMessages(s, all);
    var jobs := JobsFor(table, WaPks(rows));
    var wa := WaByReservation(s, all);
    for k := 0 to |reservations|
      invariant result.Keys == PksOf(reservations[..k])
      invariant forall pk :: pk in result ==> result[pk] == TimelineFor(d, s, table, pk)
    {
      var pk := reservations[k];
      var timeline := TimelineFromBatch(d, s, table, pks, pk, parts, wa, jobs);
      result := result[pk := timeline];
      PksNext(reservations, k);
    }
    assert reservations[..|reservations|] == reservations;
  }
}
