/** What a reservation's canonical timeline shows, said of messages and sources. */
module TimelineShows {
  import opened Wrappers
  import opened Strings
  import opened CanonicalModel
  import opened CanonicalStore
  import opened CanonicalStoreLaws
  import opened CanonicalTimeline

  // ---------------------------------------------------------------- what one source shows

  /** A raw row is shown unless it is a hidden Channex row, an inbound mail without text, or a sent WhatsApp
      message of the house that one of the WhatsApp rows mirrors. */
  ghost predicate Shows(d: Display, raw: Raw, wa: seq<Raw>) {
    (raw.key.kind == Channex ==> d.channexVisible(raw)) &&
    (raw.key.kind == Inbound ==> exists i :: 0 <= i < |d.bodyText(raw)| && !IsSpace(d.bodyText(raw)[i])) &&
    (raw.key.kind == Outbound ==> !(raw.channel == Some(WhatsAppChat) && raw.status == SendSent && d.mirrors(raw, wa)))
  }

  /** The entry of one raw row; a WhatsApp row's has the job with it. */
  function EntryOf(d: Display, raw: Raw, job: Option<nat>): Entry {
    match raw.key.kind
    case Channex => d.channex(raw)
    case WhatsApp => d.whatsapp(raw, job)
    case Inbound => d.inbound(raw)
    case Outbound => d.outbound(raw)
  }

  /** The last job of the table that names the WhatsApp row, if any does. */
  ghost predicate IsJobOf(table: seq<Job>, pk: nat, job: Option<nat>) {
    match job
    case Some(id) =>
      exists i :: 0 <= i < |table| && table[i] == Job(id, Some(pk)) &&
        forall j :: i < j < |table| ==> table[j].whatsapp != Some(pk)
    case None => forall j :: 0 <= j < |table| ==> table[j].whatsapp != Some(pk)
  }

  lemma {:induction false} LastJobIs(table: seq<Job>, pk: nat)
    ensures IsJobOf(table, pk, LastJob(table, pk))
  {
    if table != [] {
      var n := |table| - 1;
      LastJobIs(table[..n], pk);
      if table[n].whatsapp != Some(pk) && LastJob(table[..n], pk).Some? {
        var i :| 0 <= i < n && table[..n][i] == Job(LastJob(table, pk).value, Some(pk)) &&
                 forall j :: i < j < n ==> table[..n][j].whatsapp != Some(pk);
        assert table[i] == table[..n][i] && forall j :: i < j < n ==> table[j] == table[..n][j];
      }
    }
  }

  lemma ItemIs(d: Display, raw: Raw, wa: seq<Raw>, jobs: map<nat, nat>)
    ensures DisplayItem(d, raw, wa, jobs) ==
            if Shows(d, raw, wa) then Some(EntryOf(d, raw, Get(jobs, raw.key.pk))) else None
  {
    StripIsBlank(d.bodyText(raw));
  }

  // ---------------------------------------------------------------- what one message shows

  /** ix are the shown sources of the message among the first n, in order, and items their entries. */
  ghost predicate Shown(d: Display, s: Store, table: seq<Job>, m: nat, wa: seq<Raw>, ix: seq<nat>, items: seq<Entry>,
                        n: nat)
    requires n <= |s.sources|
  {
    |items| == |ix| && (forall a :: 0 <= a < |ix| ==> ix[a] < n) &&
    (forall a, b :: 0 <= a < b < |ix| ==> ix[a] < ix[b]) &&
    (forall i :: i in ix <==> 0 <= i < n && s.sources[i].message == m && Shows(d, s.sources[i].raw, wa)) &&
    forall a :: 0 <= a < |ix| ==> IsEntry(d, s, table, ix[a], items[a])
  }

  ghost predicate IsEntry(d: Display, s: Store, table: seq<Job>, i: nat, entry: Entry)
    requires i < |s.sources|
  {
    exists job :: IsJobOf(table, s.sources[i].raw.key.pk, job) && entry == EntryOf(d, s.sources[i].raw, job)
  }

  /** The job dict has the last job of each WhatsApp row among the message's sources. */
  ghost predicate HasJobs(s: Store, table: seq<Job>, m: nat, jobs: map<nat, nat>) {
    forall i :: IsSource(s, i, m) && IsWa(s.sources[i].raw) ==>
      Get(jobs, s.sources[i].raw.key.pk) == LastJob(table, s.sources[i].raw.key.pk)
  }

  lemma EntryIsEntry(d: Display, s: Store, table: seq<Job>, m: nat, jobs: map<nat, nat>, i: nat)
    requires HasJobs(s, table, m, jobs) && IsSource(s, i, m)
    ensures IsEntry(d, s, table, i, EntryOf(d, s.sources[i].raw, Get(jobs, s.sources[i].raw.key.pk)))
  {
    var raw := s.sources[i].raw;
    LastJobIs(table, raw.key.pk);
    assert EntryOf(d, raw, Get(jobs, raw.key.pk)) == EntryOf(d, raw, LastJob(table, raw.key.pk));
  }

  lemma ItemsOfMore(d: Display, raws: seq<Raw>, raw: Raw, wa: seq<Raw>, jobs: map<nat, nat>)
    ensures var item := DisplayItem(d, raw, wa, jobs);
            DisplayItems(d, raws + [raw], wa, jobs) ==
            DisplayItems(d, raws, wa, jobs) + if item.Some? then [item.value] else []
  {
    assert (raws + [raw])[..|raws|] == raws;
  }

  lemma ShownMore(d: Display, s: Store, table: seq<Job>, m: nat, wa: seq<Raw>, ix: seq<nat>, items: seq<Entry>,
                  n: nat, entry: Entry)
    requires n < |s.sources| && Shown(d, s, table, m, wa, ix, items, n) && s.sources[n].message == m
    requires Shows(d, s.sources[n].raw, wa) && IsEntry(d, s, table, n, entry)
    ensures Shown(d, s, table, m, wa, ix + [n], items + [entry], n + 1)
  {
  }

  lemma ShownSkip(d: Display, s: Store, table: seq<Job>, m: nat, wa: seq<Raw>, ix: seq<nat>, items: seq<Entry>, n: nat)
    requires n < |s.sources| && Shown(d, s, table, m, wa, ix, items, n)
    requires s.sources[n].message != m || !Shows(d, s.sources[n].raw, wa)
    ensures Shown(d, s, table, m, wa, ix, items, n + 1)
  {
  }

  lemma ShownNext(d: Display, s: Store, table: seq<Job>, m: nat, wa: seq<Raw>, jobs: map<nat, nat>, n: nat,
                  ix: seq<nat>, items: seq<Entry>) returns (ix': seq<nat>, more: seq<Entry>)
    requires n < |s.sources| && HasJobs(s, table, m, jobs) && Shown(d, s, table, m, wa, ix, items, n)
    ensures var item := DisplayItem(d, s.sources[n].raw, wa, jobs);
            more == (if s.sources[n].message == m && item.Some? then [item.value] else []) &&
            Shown(d, s, table, m, wa, ix', items + more, n + 1)
  {
    var x := s.sources[n];
    ix', more := ix, [];
    ItemIs(d, x.raw, wa, jobs);
    if x.message == m && Shows(d, x.raw, wa) {
      EntryIsEntry(d, s, table, m, jobs, n);
      more := [EntryOf(d, x.raw, Get(jobs, x.raw.key.pk))];
      ShownMore(d, s, table, m, wa, ix, items, n, more[0]);
      ix' := ix + [n];
    } else {
      ShownSkip(d, s, table, m, wa, ix, items, n);
      assert items + [] == items;
    }
  }

  lemma ItemsOfSources(d: Display, front: seq<Source>, x: Source, m: nat, wa: seq<Raw>, jobs: map<nat, nat>)
    ensures var item := DisplayItem(d, x.raw, wa, jobs);
            DisplayItems(d, SourcesOf(front + [x], m), wa, jobs) ==
            DisplayItems(d, SourcesOf(front, m), wa, jobs) + if x.message == m && item.Some? then [item.value] else []
  {
    SourcesOfMore(front, x, m);
    ItemsOfMore(d, SourcesOf(front, m), x.raw, wa, jobs);
    assert SourcesOf(front, m) + [] == SourcesOf(front, m);
  }

  lemma {:induction false} ItemsAreShown(d: Display, s: Store, table: seq<Job>, m: nat, wa: seq<Raw>,
                                         jobs: map<nat, nat>, n: nat) returns (ix: seq<nat>)
    requires n <= |s.sources| && HasJobs(s, table, m, jobs)
    ensures Shown(d, s, table, m, wa, ix, DisplayItems(d, SourcesOf(s.sources[..n], m), wa, jobs), n)
  {
    ix := [];
    if n > 0 {
      var k := n - 1;
      ix := ItemsAreShown(d, s, table, m, wa, jobs, k);
      var items := DisplayItems(d, SourcesOf(s.sources[..k], m), wa, jobs);
      assert s.sources[..n] == s.sources[..k] + [s.sources[k]];
      ItemsOfSources(d, s.sources[..k], s.sources[k], m, wa, jobs);
      var more;
      ix, more := ShownNext(d, s, table, m, wa, jobs, k, ix, items);
      assert k + 1 == n;
    }
  }

  // ---------------------------------------------------------------- what one reservation shows

  ghost predicate ShowsAny(d: Display, s: Store, m: nat, wa: seq<Raw>) {
    exists i :: IsSource(s, i, m) && Shows(d, s.sources[i].raw, wa)
  }

  /** The merge of the entries of the message's shown sources, with the message's id. */
  ghost predicate IsMessageEntry(d: Display, s: Store, table: seq<Job>, wa: seq<Raw>, m: nat, entry: Entry) {
    exists ix, items :: Shown(d, s, table, m, wa, ix, items, |s.sources|) &&
                        entry == d.merge(items)["canonical_id" := Number(m)]
  }

  /** Entry number k is that of message ids[k], and the ids are those of `all` that show something. */
  ghost predicate EntriesOf(d: Display, s: Store, table: seq<Job>, wa: seq<Raw>, all: seq<nat>, ids: seq<nat>,
                            timeline: seq<Entry>)
  {
    |timeline| == |ids| && Ordered(s.messages, ids) &&
    (forall m: nat :: m in ids <==> m in all && ShowsAny(d, s, m, wa)) &&
    forall k :: 0 <= k < |ids| ==> IsMessageEntry(d, s, table, wa, ids[k], timeline[k])
  }

  lemma SerializeShows(d: Display, s: Store, table: seq<Job>, m: nat, wa: seq<Raw>, jobs: map<nat, nat>)
    requires HasJobs(s, table, m, jobs)
    ensures var item := Serialize(d, s, m, wa, jobs);
            (item.Some? <==> ShowsAny(d, s, m, wa)) &&
            (item.Some? ==> IsMessageEntry(d, s, table, wa, m, item.value))
  {
    var ix := ItemsAreShown(d, s, table, m, wa, jobs, |s.sources|);
    assert s.sources[..|s.sources|] == s.sources;
    var items := DisplayItems(d, SourcesOf(s.sources, m), wa, jobs);
    if items != [] {
      assert ix[0] in ix;
    }
    if i :| IsSource(s, i, m) && Shows(d, s.sources[i].raw, wa) { assert i in ix; }
  }

  lemma TimelineNext(d: Display, s: Store, front: seq<nat>, m: nat, wa: seq<Raw>, jobs: map<nat, nat>)
    ensures var item := Serialize(d, s, m, wa, jobs);
            TimelineOf(d, s, front + [m], wa, jobs) ==
            TimelineOf(d, s, front, wa, jobs) + if item.Some? then [item.value] else []
  {
    assert (front + [m])[..|front|] == front;
  }

  lemma EntriesMore(d: Display, s: Store, table: seq<Job>, wa: seq<Raw>, front: seq<nat>, ids: seq<nat>,
                    timeline: seq<Entry>, m: nat, entry: Entry)
    requires EntriesOf(d, s, table, wa, front, ids, timeline) && Ordered(s.messages, front + [m])
    requires ShowsAny(d, s, m, wa) && IsMessageEntry(d, s, table, wa, m, entry)
    ensures EntriesOf(d, s, table, wa, front + [m], ids + [m], timeline + [entry])
  {
    var all := front + [m];
    assert all[|front|] == m;
    forall k | 0 <= k < |ids| ensures Before(s.messages, ids[k], m) {
      assert ids[k] in ids;
      var j :| 0 <= j < |front| && front[j] == ids[k];
      assert all[j] == front[j];
    }
  }

  lemma {:induction false} TimelineIsKept(d: Display, s: Store, table: seq<Job>, all: seq<nat>, wa: seq<Raw>,
                                          jobs: map<nat, nat>) returns (ids: seq<nat>)
    requires Ordered(s.messages, all) && forall m :: m in all ==> HasJobs(s, table, m, jobs)
    ensures EntriesOf(d, s, table, wa, all, ids, TimelineOf(d, s, all, wa, jobs))
    decreases |all|
  {
    ids := [];
    if all != [] {
      var front, m := SplitLast(all);
      assert forall k :: 0 <= k < |front| ==> all[k] == front[k];
      assert m in all && forall x :: x in front ==> x in all;
      ids := TimelineIsKept(d, s, table, front, wa, jobs);
      TimelineNext(d, s, front, m, wa, jobs);
      SerializeShows(d, s, table, m, wa, jobs);
      var item := Serialize(d, s, m, wa, jobs);
      if item.Some? {
        EntriesMore(d, s, table, wa, front, ids, TimelineOf(d, s, front, wa, jobs), m, item.value);
        ids := ids + [m];
      } else {
        assert TimelineOf(d, s, front, wa, jobs) + [] == TimelineOf(d, s, front, wa, jobs);
      }
    }
  }

  /** The message is shown in the reservation's conversation. */
  ghost predicate InView(s: Store, pk: nat, m: nat)
    requires Linked(s)
  {
    m < |s.messages| && s.messages[m].visible && s.conversations[s.messages[m].conversation].reservation.pk == pk
  }

  /** The WhatsApp rows of the reservation's visible messages, each pk once. */
  ghost predicate WaRows(s: Store, pk: nat, wa: seq<Raw>)
    requires Linked(s)
  {
    (forall a :: 0 <= a < |wa| ==> IsWaRow(s, pk, wa[a])) &&
    (forall raw :: IsWaRow(s, pk, raw) ==> exists a :: 0 <= a < |wa| && wa[a].key.pk == raw.key.pk) &&
    forall a, b :: 0 <= a < b < |wa| ==> wa[a].key.pk != wa[b].key.pk
  }

  ghost predicate IsWaRow(s: Store, pk: nat, raw: Raw)
    requires Linked(s)
  {
    raw.key.kind == WhatsApp &&
    exists i :: 0 <= i < |s.sources| && s.sources[i].raw == raw && InView(s, pk, s.sources[i].message)
  }

  lemma {:induction false} DistinctPks(raws: seq<Raw>)
    ensures var wa := DistinctWa(raws);
            (forall a, b :: 0 <= a < b < |wa| ==> wa[a].key.pk != wa[b].key.pk) &&
            forall raw :: raw in wa ==> raw in raws && IsWa(raw)
  {
    if raws != [] {
      DistinctPks(raws[..|raws| - 1]);
      assert raws == raws[..|raws| - 1] + [raws[|raws| - 1]];
    }
  }

  lemma InViewIffListed(s: Store, pk: nat, m: nat)
    requires Linked(s)
    ensures m in VisibleIds(s, {pk}) <==> InView(s, pk, m)
  {
  }

  lemma SourceOfListed(s: Store, all: seq<nat>, i: nat)
    requires i < |s.sources| && s.sources[i].message in all
    ensures s.sources[i].raw in SourcesOfAll(s.sources, all)
  {
    SourceIsListed(s.sources, i, s.sources[i].message);
    SourcesOfPart(s, all, s.sources[i].message, s.sources[i].raw);
  }

  lemma ListedHasJobs(s: Store, table: seq<Job>, all: seq<nat>, m: nat)
    requires PksPositive(s) && m in all
    ensures HasJobs(s, table, m, JobsFor(table, WaPks(DistinctWa(SourcesOfAll(s.sources, all)))))
  {
    var pks := WaPks(DistinctWa(SourcesOfAll(s.sources, all)));
    forall i | IsSource(s, i, m) && IsWa(s.sources[i].raw)
      ensures Get(JobsFor(table, pks), s.sources[i].raw.key.pk) == LastJob(table, s.sources[i].raw.key.pk)
    {
      SourceOfListed(s, all, i);
      ListedIn(s, all, s.sources[i].raw);
      JobsAreLast(table, pks, s.sources[i].raw.key.pk);
    }
  }

  lemma RowsAreWaRows(s: Store, pk: nat)
    requires Linked(s)
    ensures WaRows(s, pk, DistinctWa(SourcesOfAll(s.sources, VisibleIds(s, {pk}))))
  {
    var all := VisibleIds(s, {pk});
    var raws := SourcesOfAll(s.sources, all);
    var wa := DistinctWa(raws);
    DistinctPks(raws);
    forall a | 0 <= a < |wa| ensures IsWaRow(s, pk, wa[a]) {
      assert wa[a] in wa;
      var m := PartOf(s, all, wa[a]);
      var i := ListedIsSource(s.sources, wa[a], m);
      InViewIffListed(s, pk, m);
    }
    forall raw | IsWaRow(s, pk, raw) ensures HasPk(wa, raw.key.pk) {
      var i :| 0 <= i < |s.sources| && s.sources[i].raw == raw && InView(s, pk, s.sources[i].message);
      InViewIffListed(s, pk, s.sources[i].message);
      SourceOfListed(s, all, i);
      ListedIn(s, all, raw);
    }
  }

  /** A reservation's timeline has one entry for each visible message of its conversation of which some source is
      shown, by time and pk; the entry merges those of the shown sources and carries the message's id. */
  lemma TimelineIsShown(d: Display, s: Store, table: seq<Job>, pk: nat) returns (ids: seq<nat>, wa: seq<Raw>)
    requires Linked(s) && PksPositive(s)
    ensures WaRows(s, pk, wa)
    ensures forall m: nat :: m in ids <==> InView(s, pk, m) && ShowsAny(d, s, m, wa)
    ensures forall k :: 0 <= k < |ids| ==> ids[k] < |s.messages|
    ensures forall a, b :: 0 <= a < b < |ids| ==>
              var x, y := s.messages[ids[a]], s.messages[ids[b]];
              x.occurredAt < y.occurredAt || (x.occurredAt == y.occurredAt && ids[a] < ids[b])
    ensures |TimelineFor(d, s, table, pk)| == |ids|
    ensures forall k :: 0 <= k < |ids| ==> IsMessageEntry(d, s, table, wa, ids[k], TimelineFor(d, s, table, pk)[k])
  {
    var all := VisibleIds(s, {pk});
    wa := DistinctWa(SourcesOfAll(s.sources, all));
    RowsAreWaRows(s, pk);
    VisibleOrdered(s, {pk});
    forall m | m in all ensures HasJobs(s, table, m, JobsFor(table, WaPks(wa))) { ListedHasJobs(s, table, all, m); }
    ids := TimelineIsKept(d, s, table, all, wa, JobsFor(table, WaPks(wa)));
    forall m: nat ensures m in all <==> InView(s, pk, m) { InViewIffListed(s, pk, m); }
    forall k | 0 <= k < |ids| ensures ids[k] < |s.messages| { assert ids[k] in ids; }
  }
}
