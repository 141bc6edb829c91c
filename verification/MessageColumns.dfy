/** What the columns of a message row say of its sources, over every mix of recordings and backfill
    steps: of columns of raw rows and groups, not of the functions that read and enrich them. */
module MessageColumns {
  import opened Wrappers
  import opened Strings
  import opened CanonicalModel
  import opened CanonicalStore
  import opened CanonicalStoreLaws
  import opened CanonicalBackfill
  import opened BackfillFrames
  import opened BackfillPrediction
  import opened CanonicalRuns

  // ---------------------------------------------------------------- a row told by its sources

  ghost predicate SomeChannex(raws: seq<Raw>) {
    exists k :: 0 <= k < |raws| && raws[k].key.kind == Channex
  }

  /** The time is the earliest of the first time and those of the rows that have one. */
  ghost predicate TimeTold(first: int, raws: seq<Raw>, at: int) {
    at <= first &&
    (forall k :: 0 <= k < |raws| && raws[k].item.occurredAt.Some? ==> at <= raws[k].item.occurredAt.value) &&
    (at == first || exists k :: 0 <= k < |raws| && raws[k].item.occurredAt == Some(at))
  }

  function Size(body: string): nat {
    |Strip(body)|
  }

  /** The first of the longest bodies. */
  ghost predicate LongestAt(raws: seq<Raw>, k: int) {
    0 <= k < |raws| &&
    forall j :: 0 <= j < |raws| ==> Size(raws[j].item.body) <= Size(raws[k].item.body) &&
                                    (j < k ==> Size(raws[j].item.body) < Size(raws[k].item.body))
  }

  /** The first body, unless a row's is longer when stripped; then that of the first of the longest rows. */
  ghost predicate BodyTold(first: string, raws: seq<Raw>, body: string) {
    if forall k :: 0 <= k < |raws| ==> Size(raws[k].item.body) <= Size(first) then body == first
    else exists k :: LongestAt(raws, k) && body == raws[k].item.body
  }

  /** The first text, unless it is empty; then the first of the rows' texts that is not. */
  ghost predicate TextTold(first: string, raws: seq<Raw>, says: (Raw, string) -> bool, text: string) {
    if first != "" then text == first
    else if text == "" then forall k :: 0 <= k < |raws| ==> says(raws[k], "")
    else exists k :: 0 <= k < |raws| && says(raws[k], text) && forall j :: 0 <= j < k ==> says(raws[j], "")
  }

  predicate SaysMedia(raw: Raw, media: string) {
    raw.media == media
  }

  /** The delivery status that a row stands for. */
  predicate SaysDelivery(raw: Raw, status: string) {
    match raw.key.kind
    case Channex => status == (if raw.fromProperty then "sent" else "")
    case WhatsApp => status == (if raw.fromProperty then "sent" else "")
    case Inbound => status == ""
    case Outbound =>
      if Strip(raw.delivery) != "" then status == Strip(raw.delivery)
      else if raw.status == SendSent then status == "sent"
      else if raw.status == SendFailed then status == "failed"
      else status == ""
  }

  /** The channel that a row stands for by itself. */
  predicate SaysChannel(raw: Raw, channel: Channel) {
    match raw.key.kind
    case Channex => channel == Booking
    case WhatsApp => channel == WhatsAppChat
    case Inbound => if raw.channel.Some? then raw.channel == Some(channel) else channel == Email
    case Outbound => if raw.channel.Some? then raw.channel == Some(channel) else channel == Email
  }

  /** Every column but the channel is what that of `first` becomes with these raw rows for sources. */
  ghost predicate ColumnsTold(first: Message, raws: seq<Raw>, row: Message) {
    row.tenant == first.tenant && row.conversation == first.conversation && row.direction == first.direction &&
    row.visible == first.visible &&
    TimeTold(first.occurredAt, raws, row.occurredAt) && BodyTold(first.body, raws, row.body) &&
    TextTold(first.media, raws, SaysMedia, row.media) && TextTold(first.delivery, raws, SaysDelivery, row.delivery)
  }

  /** The row is what `first` becomes with these raw rows for sources. */
  ghost predicate Told(first: Message, raws: seq<Raw>, row: Message) {
    ColumnsTold(first, raws, row) && row.channel == if SomeChannex(raws) then Booking else first.channel
  }

  /** The same while the channel may still have to be reconciled. */
  ghost predicate Grown(first: Message, raws: seq<Raw>, row: Message) {
    ColumnsTold(first, raws, row) && (row.channel == first.channel || (row.channel == Booking && SomeChannex(raws))) &&
    (row.delivery != "" ==> Strip(row.delivery) != "")
  }

  // ---------------------------------------------------------------- one more source

  lemma TimeToldMore(first: int, raws: seq<Raw>, at: int, raw: Raw)
    requires TimeTold(first, raws, at)
    ensures var time := raw.item.occurredAt;
            TimeTold(first, raws + [raw], if time.Some? && time.value < at then time.value else at)
  {
    var all := raws + [raw];
    assert all[|raws|] == raw && forall k :: 0 <= k < |raws| ==> all[k] == raws[k];
    if at != first {
      var k :| 0 <= k < |raws| && raws[k].item.occurredAt == Some(at);
      assert all[k].item.occurredAt == Some(at);
    }
  }

  lemma BodyToldMore(first: string, raws: seq<Raw>, body: string, raw: Raw)
    requires BodyTold(first, raws, body)
    ensures BodyTold(first, raws + [raw], if Size(raw.item.body) > Size(body) then raw.item.body else body)
  {
    var all := raws + [raw];
    assert all[|raws|] == raw && forall k :: 0 <= k < |raws| ==> all[k] == raws[k];
    if forall k :: 0 <= k < |raws| ==> Size(raws[k].item.body) <= Size(first) {
      if Size(raw.item.body) > Size(body) { assert LongestAt(all, |raws|); }
    } else {
      var k :| LongestAt(raws, k) && body == raws[k].item.body;
      assert LongestAt(all, if Size(raw.item.body) > Size(body) then |raws| else k);
    }
  }

  lemma TextToldMore(first: string, raws: seq<Raw>, says: (Raw, string) -> bool, text: string, raw: Raw, more: string)
    requires TextTold(first, raws, says, text) && says(raw, more)
    ensures TextTold(first, raws + [raw], says, if text == "" then more else text)
  {
    var all := raws + [raw];
    assert all[|raws|] == raw && forall k :: 0 <= k < |raws| ==> all[k] == raws[k];
    if first == "" && text != "" {
      var k :| 0 <= k < |raws| && says(raws[k], text) && forall j :: 0 <= j < k ==> says(raws[j], "");
      assert says(all[k], text);
    }
  }

  lemma DeliveryIsSaid(raw: Raw)
    ensures SaysDelivery(raw, DeliveryOf(raw))
  {
  }

  lemma SomeChannexMore(raws: seq<Raw>, raw: Raw)
    ensures SomeChannex(raws) ==> SomeChannex(raws + [raw])
    ensures raw.key.kind == Channex ==> SomeChannex(raws + [raw])
  {
    var all := raws + [raw];
    assert all[|raws|] == raw && forall k :: 0 <= k < |raws| ==> all[k] == raws[k];
  }

  /** What attaching one more raw row makes of the columns. */
  lemma EnrichColumns(row: Message, raw: Raw)
    requires row.delivery != "" ==> Strip(row.delivery) != ""
    ensures var time, rich := raw.item.occurredAt, Enrich(row, raw);
            rich == row.(occurredAt := if time.Some? && time.value < row.occurredAt then time.value else row.occurredAt,
                         body := if Size(raw.item.body) > Size(row.body) then raw.item.body else row.body,
                         media := if row.media == "" then raw.media else row.media,
                         delivery := if row.delivery == "" then DeliveryOf(raw) else row.delivery)
  {
    StripIsTrimmed("");
  }

  lemma GrownMore(first: Message, raws: seq<Raw>, row: Message, raw: Raw)
    requires Grown(first, raws, row)
    ensures Grown(first, raws + [raw], Enrich(row, raw))
  {
    EnrichColumns(row, raw);
    TimeToldMore(first.occurredAt, raws, row.occurredAt, raw);
    BodyToldMore(first.body, raws, row.body, raw);
    TextToldMore(first.media, raws, SaysMedia, row.media, raw, raw.media);
    DeliveryIsSaid(raw);
    DeliveryIsText(raw);
    TextToldMore(first.delivery, raws, SaysDelivery, row.delivery, raw, DeliveryOf(raw));
    SomeChannexMore(raws, raw);
  }

  // ---------------------------------------------------------------- every write keeps a row grown

  lemma ChannexIsListed(s: Store, m: nat)
    ensures HasChannex(s, m) <==> SomeChannex(SourcesOf(s.sources, m))
  {
    var raws := SourcesOf(s.sources, m);
    if HasChannex(s, m) {
      var i :| 0 <= i < |s.sources| && s.sources[i].message == m && s.sources[i].raw.key.kind == Channex;
      SourceIsListed(s.sources, i, m);
      var k :| 0 <= k < |raws| && raws[k] == s.sources[i].raw;
    }
    if SomeChannex(raws) {
      var k :| 0 <= k < |raws| && raws[k].key.kind == Channex;
      var i := ListedIsSource(s.sources, raws[k], m);
    }
  }

  ghost predicate GrownAt(first: Message, s: Store, m: nat) {
    m < |s.messages| && Grown(first, SourcesOf(s.sources, m), s.messages[m])
  }

  lemma AttachKeepsGrown(s: Store, tenant: nat, target: nat, raw: Raw, first: Message, m: nat)
    requires target < |s.messages| && GrownAt(first, s, m)
    ensures GrownAt(first, Attach(s, tenant, target, s.messages[target], raw), m)
  {
    SourcesOfMore(s.sources, NewSource(tenant, target, raw), m);
    var raws := SourcesOf(s.sources, m);
    assert raws + [] == raws;
    if m == target { GrownMore(first, raws, s.messages[m], raw); }
  }

  lemma ReconcileKeepsGrown(s: Store, target: nat, first: Message, m: nat)
    requires target < |s.messages| && GrownAt(first, s, m)
    ensures GrownAt(first, ReconcileChannel(s, target), m)
  {
    ChannexIsListed(s, target);
  }

  lemma RecordKeepsGrown(merge: MergeRule, s: Store, raw: Raw, first: Message, m: nat)
    requires Core(s) && GrownAt(first, s, m)
    ensures GrownAt(first, Record(merge, s, raw).store, m)
  {
    if raw.reservation.Some? {
      var tenant := raw.reservation.value.tenant;
      var locked, conversation, matched := RecordCases(merge, s, raw);
      if !Clashes(s, tenant, raw) {
        if matched.Some? {
          var target := matched.value;
          AttachKeepsGrown(locked, tenant, target, raw, first, m);
          ReconcileKeepsGrown(Attach(locked, tenant, target, locked.messages[target], raw), target, first, m);
        } else {
          BirthKeepsGrown(locked, tenant, conversation, raw, first, m);
        }
      }
    }
  }

  lemma BirthKeepsGrown(s: Store, tenant: nat, conversation: nat, raw: Raw, first: Message, m: nat)
    requires GrownAt(first, s, m)
    ensures var n := |s.messages|;
            var s' := InsertSource(InsertMessage(s, NewMessage(tenant, conversation, raw)), tenant, n, raw);
            GrownAt(first, ReconcileChannel(s', n), m)
  {
    var n := |s.messages|;
    var s' := InsertSource(InsertMessage(s, NewMessage(tenant, conversation, raw)), tenant, n, raw);
    SourcesOfMore(s.sources, NewSource(tenant, n, raw), m);
    assert SourcesOf(s.sources, m) + [] == SourcesOf(s.sources, m);
    ReconcileKeepsGrown(s', n, first, m);
  }

  lemma {:induction false} FillKeepsGrown(s0: Store, s: Store, tenant: nat, target: nat, members: seq<Raw>,
                                          first: Message, m: nat)
    requires target < |s.messages| && GrownAt(first, s, m)
    ensures GrownAt(first, FillMembers(s0, s, tenant, target, members).store, m)
  {
    if members != [] {
      var n := |members| - 1;
      FillKeepsGrown(s0, s, tenant, target, members[..n], first, m);
      var f := FillMembers(s0, s, tenant, target, members[..n]);
      if !LookupPair(s0, tenant, members[n]).Found? && !Clashes(f.store, tenant, members[n]) {
        AttachKeepsGrown(f.store, tenant, target, members[n], first, m);
      }
    }
  }

  lemma FinishKeepsGrown(s0: Store, b: Store, tenant: nat, target: nat, members: seq<Raw>, first: Message, m: nat)
    requires target < |b.messages| && GrownAt(first, b, m)
    ensures GrownAt(first, ReconcileChannel(FillMembers(s0, b, tenant, target, members).store, target), m)
  {
    FillKeepsGrown(s0, b, tenant, target, members, first, m);
    ReconcileKeepsGrown(FillMembers(s0, b, tenant, target, members).store, target, first, m);
  }

  lemma ApplyKeepsGrown(now: int, s0: Store, s: Store, reservation: Reservation, g: Group, visible: Option<nat>,
                        first: Message, m: nat)
    requires (visible.Some? ==> visible.value < |s.messages|) && GrownAt(first, s, m)
    ensures GrownAt(first, ApplyGroup(now, s0, s, reservation, g, visible).store, m)
  {
    var l := LockConversation(s, reservation);
    match visible
    case Some(target) => FinishKeepsGrown(s0, l.store, reservation.tenant, target, g.members, first, m);
    case None =>
      var row := GroupRow(now, reservation.tenant, l.conversation, g);
      FinishKeepsGrown(s0, InsertMessage(l.store, row), reservation.tenant, |s.messages|, g.members, first, m);
  }

  lemma {:induction false} HandleAllKeepsGrown(now: int, s0: Store, reservation: Reservation, todos: seq<Todo>,
                                               report: Report, first: Message, m: nat)
    requires Fit(s0, todos) && GrownAt(first, s0, m)
    ensures GrownAt(first, HandleAll(Apply, now, s0, reservation, todos, report).store, m)
  {
    if todos != [] {
      var n := |todos| - 1;
      HandleAllKeepsGrown(now, s0, reservation, todos[..n], report, first, m);
      var s := HandleAll(Apply, now, s0, reservation, todos[..n], report).store;
      ApplyKeepsGrown(now, s0, s, reservation, todos[n].group, todos[n].resolution.visible, first, m);
    }
  }

  lemma RunKeepsGrown(merge: MergeRule, s: Store, op: Op, first: Message, m: nat)
    requires Valid(s) && OpOk(op) && GrownAt(first, s, m)
    ensures GrownAt(first, Run(merge, s, op), m)
  {
    match op
    case RecordOp(raw) => RecordKeepsGrown(merge, s, raw, first, m);
    case BackfillOp(now, w) =>
      var rs := Resolutions(s, w);
      UnblockedAreOpen(s, w);
      HandleAllKeepsGrown(now, s, w.reservation, Unblocked(w, rs, |rs|),
                          AfterPhaseOne(w, rs, |s.messages|, NEW_REPORT), first, m);
  }

  // ---------------------------------------------------------------- births

  /** The row of a message that a recording inserts for a raw row. */
  ghost predicate BornOfRow(raw: Raw, first: Message) {
    first.visible && first.body == raw.item.body && SaysChannel(raw, first.channel) && SaysMedia(raw, first.media) &&
    SaysDelivery(raw, first.delivery) &&
    first.direction == (if raw.item.direction.Some? then raw.item.direction.value else InboundDir) &&
    first.occurredAt == if raw.item.occurredAt.Some? then raw.item.occurredAt.value else raw.createdAt
  }

  /** The row of a message that the backfill inserts for a group. */
  ghost predicate BornOfGroup(now: int, g: Group, first: Message) {
    first.visible && first.body == g.body &&
    first.direction == (if g.direction.Some? then g.direction.value else InboundDir) &&
    first.channel == (if SomeChannex(g.members) then Booking else if g.channel.Some? then g.channel.value else Email) &&
    first.occurredAt == (if g.occurredAt.Some? then g.occurredAt.value else now) &&
    TextTold("", g.members, SaysMedia, first.media) && TextTold("", g.members, SaysDelivery, first.delivery)
  }

  /** The row lies in the reservation's conversation and tenant. */
  ghost predicate PlacedIn(s: Store, first: Message, reservation: Reservation) {
    first.tenant == reservation.tenant && first.conversation < |s.conversations| &&
    s.conversations[first.conversation].reservation == reservation
  }

  lemma NewMessageIsGrown(tenant: nat, conversation: nat, raw: Raw)
    ensures var first := NewMessage(tenant, conversation, raw); BornOfRow(raw, first) && Grown(first, [raw], first)
  {
    DeliveryIsText(raw);
    DeliveryIsSaid(raw);
  }

  lemma {:induction false} MembersTell(members: seq<Raw>)
    ensures TextTold("", members, SaysMedia, FirstMedia(members))
    ensures TextTold("", members, SaysDelivery, FirstDelivery(members))
    ensures FirstDelivery(members) != "" ==> Strip(FirstDelivery(members)) != ""
  {
    if members != [] {
      var n := |members| - 1;
      MembersTell(members[..n]);
      assert members == members[..n] + [members[n]];
      DeliveryIsText(members[n]);
      DeliveryIsSaid(members[n]);
      TextToldMore("", members[..n], SaysMedia, FirstMedia(members[..n]), members[n], members[n].media);
      TextToldMore("", members[..n], SaysDelivery, FirstDelivery(members[..n]), members[n], DeliveryOf(members[n]));
    }
  }

  lemma GroupRowIsGrown(now: int, tenant: nat, conversation: nat, g: Group)
    ensures var first := GroupRow(now, tenant, conversation, g); BornOfGroup(now, g, first) && Grown(first, [], first)
  {
    MembersTell(g.members);
  }

  /** i is the first source of the message. */
  ghost predicate FirstSource(s: Store, i: nat, m: nat) {
    i < |s.sources| && s.sources[i].message == m && forall j :: 0 <= j < i ==> s.sources[j].message != m
  }

  lemma BornWithSource(s: Store, tenant: nat, conversation: nat, raw: Raw) returns (born: Store)
    requires Linked(s)
    ensures var m, first := |s.messages|, NewMessage(tenant, conversation, raw);
            born == InsertSource(InsertMessage(s, first), tenant, m, raw) &&
            GrownAt(first, born, m) && FirstSource(born, |s.sources|, m) && born.sources[|s.sources|].raw == raw
  {
    var m, first := |s.messages|, NewMessage(tenant, conversation, raw);
    NewMessageIsGrown(tenant, conversation, raw);
    SourcesOfNone(s.sources, m);
    SourcesOfMore(s.sources, NewSource(tenant, m, raw), m);
    born := InsertSource(InsertMessage(s, first), tenant, m, raw);
  }

  lemma BirthIsGrown(s: Store, tenant: nat, conversation: nat, raw: Raw)
    requires Linked(s)
    ensures var m, first := |s.messages|, NewMessage(tenant, conversation, raw);
            var s' := ReconcileChannel(InsertSource(InsertMessage(s, first), tenant, m, raw), m);
            GrownAt(first, s', m) && FirstSource(s', |s.sources|, m) && s'.sources[|s.sources|].raw == raw
  {
    var m, first := |s.messages|, NewMessage(tenant, conversation, raw);
    var born := BornWithSource(s, tenant, conversation, raw);
    ReconcileKeepsGrown(born, m, first, m);
    assert ReconcileChannel(born, m).sources == born.sources;
  }

  /** A recording that inserts a message inserts one for its raw row, which is its first source. */
  lemma RecordBears(merge: MergeRule, s: Store, raw: Raw, m: nat) returns (i: nat, first: Message)
    requires Core(s) && |s.messages| <= m < |Record(merge, s, raw).store.messages|
    ensures var s' := Record(merge, s, raw).store;
            FirstSource(s', i, m) && s'.sources[i].raw == raw && GrownAt(first, s', m) &&
            raw.reservation.Some? && BornOfRow(raw, first) && PlacedIn(s', first, raw.reservation.value)
  {
    var tenant := raw.reservation.value.tenant;
    var locked, conversation, matched := RecordCases(merge, s, raw);
    i, first := |s.sources|, NewMessage(tenant, conversation, raw);
    NewMessageIsGrown(tenant, conversation, raw);
    BirthIsGrown(locked, tenant, conversation, raw);
  }

  lemma ApplyBears(now: int, s0: Store, s: Store, reservation: Reservation, g: Group, visible: Option<nat>, m: nat)
    returns (first: Message)
    requires Linked(s) && (visible.Some? ==> visible.value < |s.messages|)
    requires |s.messages| <= m < |ApplyGroup(now, s0, s, reservation, g, visible).store.messages|
    ensures var s' := ApplyGroup(now, s0, s, reservation, g, visible).store;
            BornOfGroup(now, g, first) && PlacedIn(s', first, reservation) && GrownAt(first, s', m)
  {
    ApplyGrows(now, s0, s, reservation, g, visible, (r: Raw) => true);
    var l := LockConversation(s, reservation);
    first := GroupRow(now, reservation.tenant, l.conversation, g);
    GroupRowIsGrown(now, reservation.tenant, l.conversation, g);
    SourcesOfNone(s.sources, m);
    FinishKeepsGrown(s0, InsertMessage(l.store, first), reservation.tenant, m, g.members, first, m);
  }

  /** Handling groups inserts a message only for one of them. */
  lemma {:induction false} HandleAllBears(now: int, s0: Store, reservation: Reservation, todos: seq<Todo>,
                                          report: Report, m: nat) returns (k: nat, first: Message)
    requires Linked(s0) && Fit(s0, todos)
    requires |s0.messages| <= m < |HandleAll(Apply, now, s0, reservation, todos, report).store.messages|
    ensures k < |todos| &&
            BornInto(now, HandleAll(Apply, now, s0, reservation, todos, report).store, reservation, todos[k].group,
                     first, m)
  {
    var n := |todos| - 1;
    var s := HandleAll(Apply, now, s0, reservation, todos[..n], report).store;
    HandleAllGrows(Apply, now, s0, reservation, todos[..n], report, (r: Raw) => true);
    if m < |s.messages| {
      k, first := HandleAllBears(now, s0, reservation, todos[..n], report, m);
      ApplyKeepsBirth(now, s0, s, reservation, todos[n], todos[k].group, first, m);
    } else {
      k := n;
      first := ApplyBears(now, s0, s, reservation, todos[n].group, todos[n].resolution.visible, m);
    }
  }

  /** The message was inserted for the group and has grown since. */
  ghost predicate BornInto(now: int, s: Store, reservation: Reservation, g: Group, first: Message, m: nat) {
    BornOfGroup(now, g, first) && PlacedIn(s, first, reservation) && GrownAt(first, s, m)
  }

  lemma ApplyKeepsBirth(now: int, s0: Store, s: Store, reservation: Reservation, todo: Todo, g: Group,
                        first: Message, m: nat)
    requires Linked(s) && (todo.resolution.visible.Some? ==> todo.resolution.visible.value < |s.messages|)
    requires BornInto(now, s, reservation, g, first, m)
    ensures BornInto(now, ApplyGroup(now, s0, s, reservation, todo.group, todo.resolution.visible).store, reservation,
                     g, first, m)
  {
    ApplyGrows(now, s0, s, reservation, todo.group, todo.resolution.visible, (r: Raw) => true);
    ApplyKeepsGrown(now, s0, s, reservation, todo.group, todo.resolution.visible, first, m);
  }

  /** A backfill step inserts a message only for one of its groups. */
  lemma BackfillBears(now: int, s: Store, w: Work, report: Report, m: nat) returns (k: nat, first: Message)
    requires Linked(s) && |s.messages| <= m < |ProcessReservation(Apply, now, s, w, report).store.messages|
    ensures var s' := ProcessReservation(Apply, now, s, w, report).store;
            k < |w.groups| && BornOfGroup(now, w.groups[k], first) && PlacedIn(s', first, w.reservation) &&
            GrownAt(first, s', m)
  {
    var rs := Resolutions(s, w);
    UnblockedAreOpen(s, w);
    k, first := HandleAllBears(now, s, w.reservation, Unblocked(w, rs, |rs|),
                               AfterPhaseOne(w, rs, |s.messages|, report), m);
    k := OpenIndexes(rs, |rs|)[k];
  }

  // ---------------------------------------------------------------- whole runs

  lemma GrownIsTold(s: Store, first: Message, m: nat)
    requires Valid(s) && GrownAt(first, s, m)
    ensures Told(first, SourcesOf(s.sources, m), s.messages[m])
  {
    ChannexIsListed(s, m);
  }

  /** A message born live in a mixed run of recordings and backfill steps lies in the conversation of its
      first source's reservation, and its columns are what that raw row and those of its other sources say. */
  lemma LiveRowIsTold(merge: MergeRule, s: Store, ops: seq<Op>, m: nat) returns (i: nat, first: Message)
    requires Valid(s) && forall k :: 0 <= k < |ops| ==> OpOk(ops[k])
    requires BornLive(merge, s, ops, m)
    ensures var r := Replay(merge, s, ops);
            m < |r.messages| && FirstSource(r, i, m) && BornOfRow(r.sources[i].raw, first) &&
            Told(first, SourcesOf(r.sources, m), r.messages[m]) &&
            r.sources[i].raw.reservation.Some? && PlacedIn(r, first, r.sources[i].raw.reservation.value)
  {
    i, first := LiveRowGrows(merge, s, ops, m);
    GrownIsTold(Replay(merge, s, ops), first, m);
  }

  /** The first source of a message born live is its birth row, from which it has grown. */
  ghost predicate LiveAt(s: Store, i: nat, first: Message, m: nat) {
    FirstSource(s, i, m) && BornOfRow(s.sources[i].raw, first) && GrownAt(first, s, m) &&
    s.sources[i].raw.reservation.Some? && PlacedIn(s, first, s.sources[i].raw.reservation.value)
  }

  lemma LiveAtPersists(s: Store, s': Store, i: nat, first: Message, m: nat)
    requires LiveAt(s, i, first, m) && Grows(s, s') && GrownAt(first, s', m)
    ensures LiveAt(s', i, first, m)
  {
    assert forall j :: 0 <= j <= i ==> s'.sources[j] == s.sources[j];
  }

  lemma {:induction false} LiveRowGrows(merge: MergeRule, s: Store, ops: seq<Op>, m: nat)
    returns (i: nat, first: Message)
    requires Valid(s) && forall k :: 0 <= k < |ops| ==> OpOk(ops[k])
    requires BornLive(merge, s, ops, m)
    ensures LiveAt(Replay(merge, s, ops), i, first, m)
  {
    var n := |ops| - 1;
    var before := Replay(merge, s, ops[..n]);
    if m < |before.messages| {
      i, first := LiveRowGrows(merge, s, ops[..n], m);
      RunKeepsGrown(merge, before, ops[n], first, m);
      RunKeepsValid(merge, before, ops[n]);
      LiveAtPersists(before, Replay(merge, s, ops), i, first, m);
    } else {
      i, first := RecordBears(merge, before, ops[n].raw, m);
    }
  }

  /** A message that the run did not bring in live was there before, or a backfill step of the run inserted it
      for one of its groups; then its columns are what the group and the rows of its sources say. */
  lemma {:induction false} BackfilledRowIsTold(merge: MergeRule, s: Store, ops: seq<Op>, m: nat)
    returns (a: nat, k: nat, first: Message)
    requires Valid(s) && forall k :: 0 <= k < |ops| ==> OpOk(ops[k])
    requires |s.messages| <= m < |Replay(merge, s, ops).messages| && !BornLive(merge, s, ops, m)
    ensures var r := Replay(merge, s, ops);
            a < |ops| && ops[a].BackfillOp? && k < |ops[a].work.groups| &&
            BornOfGroup(ops[a].now, ops[a].work.groups[k], first) && PlacedIn(r, first, ops[a].work.reservation) &&
            GrownAt(first, r, m) && Told(first, SourcesOf(r.sources, m), r.messages[m])
  {
    var n := |ops| - 1;
    var before := Replay(merge, s, ops[..n]);
    if m < |before.messages| {
      a, k, first := BackfilledRowIsTold(merge, s, ops[..n], m);
      RunKeepsGrown(merge, before, ops[n], first, m);
      RunKeepsValid(merge, before, ops[n]);
    } else {
      a := n;
      k, first := BackfillBears(ops[n].now, before, ops[n].work, NEW_REPORT, m);
    }
    GrownIsTold(Replay(merge, s, ops), first, m);
  }

  ghost function AsOps(raws: seq<Raw>): seq<Op> {
    seq(|raws|, k requires 0 <= k < |raws| => RecordOp(raws[k]))
  }

  /** A live run is a mixed run without backfill steps, and all its messages are born live. */
  lemma {:induction false} LiveIsMixed(merge: MergeRule, raws: seq<Raw>, m: nat)
    ensures Valid(EMPTY_STORE) && Replay(merge, EMPTY_STORE, AsOps(raws)) == RecordAll(merge, raws)
    ensures m < |RecordAll(merge, raws).messages| ==> BornLive(merge, EMPTY_STORE, AsOps(raws), m)
  {
    if raws != [] {
      var n := |raws| - 1;
      LiveIsMixed(merge, raws[..n], m);
      assert AsOps(raws)[..n] == AsOps(raws[..n]);
    }
  }

  /** A message with a Channex source is on Booking; any other is on WhatsApp when its first source, number i,
      is a WhatsApp row, else on the channel of that row's own column, e-mail when it has none. */
  ghost predicate ChannelTold(s: Store, i: nat, m: nat)
    requires i < |s.sources| && m < |s.messages|
  {
    s.messages[m].channel ==
    if exists j :: IsSource(s, j, m) && s.sources[j].raw.key.kind == Channex then Booking
    else if s.sources[i].raw.key.kind == WhatsApp then WhatsAppChat
    else s.sources[i].raw.channel.GetOr(Email)
  }

  /** So it is for every message born live in a mixed run. */
  lemma LiveChannel(merge: MergeRule, s: Store, ops: seq<Op>, m: nat) returns (i: nat)
    requires Valid(s) && forall k :: 0 <= k < |ops| ==> OpOk(ops[k])
    requires BornLive(merge, s, ops, m)
    ensures var r := Replay(merge, s, ops);
            m < |r.messages| && FirstSource(r, i, m) && ChannelTold(r, i, m)
  {
    var first;
    i, first := LiveRowIsTold(merge, s, ops, m);
    ChannexIsListed(Replay(merge, s, ops), m);
  }

  /** And for every message of every live run. */
  lemma LiveRunChannel(merge: MergeRule, raws: seq<Raw>, m: nat) returns (i: nat)
    requires m < |RecordAll(merge, raws).messages|
    ensures var s := RecordAll(merge, raws); FirstSource(s, i, m) && ChannelTold(s, i, m)
  {
    LiveIsMixed(merge, raws, m);
    i := LiveChannel(merge, EMPTY_STORE, AsOps(raws), m);
  }
}
