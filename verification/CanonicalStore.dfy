/** Dual-writing raw ingest rows onto Conversation / GuestMessage / GuestMessageSource. A row's
    primary key is its position in its table: nothing here deletes a row. */
module CanonicalStore {
  import opened Wrappers
  import opened CanonicalModel

  datatype Store = Store(conversations: seq<Conversation>, messages: seq<Message>, sources: seq<Source>)

  /** What recording a raw row answers: nothing for an unrouted row, the message, or the exception. */
  datatype Outcome = Skipped | Returned(message: nat) | Mismatch

  datatype Recorded = Recorded(store: Store, outcome: Outcome)

  datatype Locked = Locked(store: Store, conversation: nat)

  // ---------------------------------------------------------------- lookups

  function FindConversation(s: Store, reservation: Reservation): (r: Option<nat>)
    ensures r.Some? ==> r.value < |s.conversations| && s.conversations[r.value].reservation == reservation
    ensures r.None? ==> forall i :: 0 <= i < |s.conversations| ==> s.conversations[i].reservation != reservation
  {
    FindFirst(s.conversations, (c: Conversation) => c.reservation == reservation)
  }

  /** Get the reservation's conversation, creating it when it is missing. */
  function LockConversation(s: Store, reservation: Reservation): (r: Locked)
    ensures r.conversation < |r.store.conversations|
    ensures r.store.conversations[r.conversation].reservation == reservation
    ensures r.store.messages == s.messages && r.store.sources == s.sources
    ensures s.conversations <= r.store.conversations
    ensures FindConversation(s, reservation).Some? <==> r.store == s
  {
    match FindConversation(s, reservation)
    case Some(c) => Locked(s, c)
    case None => Locked(s.(conversations := s.conversations + [Conversation(reservation)]), |s.conversations|)
  }

  function FindByKey(s: Store, key: RawKey): (r: Option<nat>)
    ensures r.Some? ==> r.value < |s.sources| && s.sources[r.value].raw.key == key
    ensures r.Some? ==> forall i :: 0 <= i < r.value ==> s.sources[i].raw.key != key
    ensures r.None? ==> forall i :: 0 <= i < |s.sources| ==> s.sources[i].raw.key != key
  {
    FindFirst(s.sources, (x: Source) => x.raw.key == key)
  }

  predicate HasId(x: Source, tenant: nat, provider: Provider, id: Option<string>) {
    id.Some? && x.tenant == tenant && x.provider == provider && x.providerId == id
  }

  function FindById(s: Store, tenant: nat, provider: Provider, id: Option<string>): (r: Option<nat>)
    ensures r.Some? ==> r.value < |s.sources| && HasId(s.sources[r.value], tenant, provider, id)
    ensures r.Some? ==> forall i :: 0 <= i < r.value ==> !HasId(s.sources[i], tenant, provider, id)
    ensures r.None? ==> forall i :: 0 <= i < |s.sources| ==> !HasId(s.sources[i], tenant, provider, id)
  {
    FindFirst(s.sources, (x: Source) => HasId(x, tenant, provider, id))
  }

  /** The source of a raw row: by its own foreign key, else by provider id. */
  function LookupSource(s: Store, tenant: nat, raw: Raw): (r: Option<nat>)
    ensures r.Some? ==> r.value < |s.sources| && Blocks(s.sources[r.value], tenant, raw)
    ensures r.None? <==> !Clashes(s, tenant, raw)
  {
    var byKey := FindByKey(s, raw.key);
    if byKey.Some? then byKey else FindById(s, tenant, ProviderOf(raw), CanonicalId(raw))
  }

  /** A stored source that the unique indexes would not allow beside one for this raw row. */
  predicate Blocks(x: Source, tenant: nat, raw: Raw) {
    x.raw.key == raw.key || HasId(x, tenant, ProviderOf(raw), CanonicalId(raw))
  }

  /** Inserting a source for this raw row would violate a unique index. */
  predicate Clashes(s: Store, tenant: nat, raw: Raw) {
    exists i :: 0 <= i < |s.sources| && Blocks(s.sources[i], tenant, raw)
  }

  /** `message.sources.all()`, as raw rows. */
  function SourcesOf(sources: seq<Source>, m: nat): seq<Raw> {
    if sources == [] then []
    else
      var last := sources[|sources| - 1];
      SourcesOf(sources[..|sources| - 1], m) + if last.message == m then [last.raw] else []
  }

  // ---------------------------------------------------------------- the heuristic match

  predicate IsCandidate(s: Store, conversation: nat, direction: Direction, at: int, m: nat) {
    m < |s.messages| &&
    s.messages[m].conversation == conversation &&
    s.messages[m].direction == direction &&
    s.messages[m].visible &&
    at - Window(direction) <= s.messages[m].occurredAt <= at + Window(direction)
  }

  predicate Candidate(s: Store, conversation: nat, item: Item, m: nat) {
    item.occurredAt.Some? && item.direction.Some? &&
    IsCandidate(s, conversation, item.direction.value, item.occurredAt.value, m)
  }

  /** Some source of the message, or the message itself, merges with the incoming item. */
  predicate Merges(merge: MergeRule, s: Store, item: Item, m: nat)
    requires m < |s.messages|
  {
    (exists i :: 0 <= i < |s.sources| && s.sources[i].message == m && merge(item, s.sources[i].raw.item)) ||
    merge(item, FallbackItem(s.messages[m]))
  }

  /** Ordered by occurred_at and then id. */
  predicate Before(messages: seq<Message>, a: nat, b: nat)
    requires a < |messages| && b < |messages|
  {
    messages[a].occurredAt < messages[b].occurredAt || (messages[a].occurredAt == messages[b].occurredAt && a < b)
  }

  predicate Suits(merge: MergeRule, s: Store, conversation: nat, item: Item, m: nat) {
    Candidate(s, conversation, item, m) && Merges(merge, s, item, m)
  }

  /** r is the first candidate, by time and id, that merges with the item. */
  ghost predicate IsMatch(merge: MergeRule, s: Store, conversation: nat, item: Item, r: Option<nat>) {
    match r
    case Some(m) =>
      Suits(merge, s, conversation, item, m) &&
      forall k :: 0 <= k < |s.messages| && Suits(merge, s, conversation, item, k) && k != m ==> Before(s.messages, m, k)
    case None => forall k :: 0 <= k < |s.messages| ==> !Suits(merge, s, conversation, item, k)
  }

  function MatchAmong(merge: MergeRule, s: Store, conversation: nat, item: Item, n: nat): (r: Option<nat>)
    requires n <= |s.messages|
    ensures r.Some? ==> r.value < n && Suits(merge, s, conversation, item, r.value)
    ensures r.Some? ==> forall k :: 0 <= k < n && Suits(merge, s, conversation, item, k) && k != r.value ==>
              Before(s.messages, r.value, k)
    ensures r.None? ==> forall k :: 0 <= k < n ==> !Suits(merge, s, conversation, item, k)
  {
    if n == 0 then None
    else
      var best := MatchAmong(merge, s, conversation, item, n - 1);
      if Suits(merge, s, conversation, item, n - 1) && (best.None? || Before(s.messages, n - 1, best.value))
      then Some(n - 1) else best
  }

  function HeuristicMatch(merge: MergeRule, s: Store, conversation: nat, item: Item): (r: Option<nat>)
    ensures IsMatch(merge, s, conversation, item, r)
  {
    MatchAmong(merge, s, conversation, item, |s.messages|)
  }

  lemma MatchIsUnique(merge: MergeRule, s: Store, conversation: nat, item: Item, r: Option<nat>)
    requires IsMatch(merge, s, conversation, item, r)
    ensures r == HeuristicMatch(merge, s, conversation, item)
  {
  }

  // ---------------------------------------------------------------- ordered queries

  function InsertOrdered(messages: seq<Message>, ids: seq<nat>, x: nat): (r: seq<nat>)
    requires x < |messages| && forall i :: 0 <= i < |ids| ==> ids[i] < |messages|
    ensures forall i :: 0 <= i < |r| ==> r[i] < |messages|
    ensures forall k :: k in r <==> k in ids || k == x
  {
    if ids == [] then [x]
    else if Before(messages, x, ids[0]) then [x] + ids
    else
      [ids[0]] + InsertOrdered(messages, ids[1..], x)
  }

  /** The ids below n that a filter keeps, ordered by occurred_at and then id. */
  function OrderedIds(messages: seq<Message>, keep: nat -> bool, n: nat): (r: seq<nat>)
    requires n <= |messages|
    ensures forall k :: k in r <==> 0 <= k < n && keep(k)
  {
    if n == 0 then []
    else
      var rest := OrderedIds(messages, keep, n - 1);
      assert forall i :: 0 <= i < |rest| ==> rest[i] in rest;
      if keep(n - 1) then InsertOrdered(messages, rest, n - 1) else rest
  }

  ghost predicate Ordered(messages: seq<Message>, ids: seq<nat>) {
    (forall i :: 0 <= i < |ids| ==> ids[i] < |messages|) &&
    forall i, j :: 0 <= i < j < |ids| ==> Before(messages, ids[i], ids[j])
  }

  lemma {:induction false} InsertOrderedIsOrdered(messages: seq<Message>, ids: seq<nat>, x: nat)
    requires x < |messages| && Ordered(messages, ids) && x !in ids
    ensures Ordered(messages, InsertOrdered(messages, ids, x))
  {
    var r := InsertOrdered(messages, ids, x);
    if ids != [] && !Before(messages, x, ids[0]) {
      InsertOrderedIsOrdered(messages, ids[1..], x);
      var rest := InsertOrdered(messages, ids[1..], x);
      forall j | 0 <= j < |rest| ensures Before(messages, ids[0], rest[j]) {
        assert rest[j] in rest;
        if rest[j] != x {
          var k :| 0 <= k < |ids[1..]| && ids[1..][k] == rest[j];
          assert Before(messages, ids[0], ids[k + 1]);
        }
      }
    }
  }

  /** The query's order is strict, so it is the only ordered list of these ids. */
  lemma {:induction false} OrderedIdsAreOrdered(messages: seq<Message>, keep: nat -> bool, n: nat)
    requires n <= |messages|
    ensures Ordered(messages, OrderedIds(messages, keep, n))
  {
    if n > 0 {
      OrderedIdsAreOrdered(messages, keep, n - 1);
      if keep(n - 1) {
        InsertOrderedIsOrdered(messages, OrderedIds(messages, keep, n - 1), n - 1);
      }
    }
  }

  // ---------------------------------------------------------------- writes

  predicate HasChannex(s: Store, m: nat) {
    exists i :: 0 <= i < |s.sources| && s.sources[i].message == m && s.sources[i].raw.key.kind == Channex
  }

  /** A message with a Channex source is shown on the Booking channel. */
  function ReconcileChannel(s: Store, m: nat): Store
    requires m < |s.messages|
  {
    if HasChannex(s, m) then s.(messages := s.messages[m := s.messages[m].(channel := Booking)]) else s
  }

  function InsertSource(s: Store, tenant: nat, m: nat, raw: Raw): Store {
    s.(sources := s.sources + [NewSource(tenant, m, raw)])
  }

  function InsertMessage(s: Store, message: Message): Store {
    s.(messages := s.messages + [message])
  }

  /** `save(update_fields=...)`: only the fields that enriching changed are written to the row. */
  function SaveEnriched(row: Message, seen: Message, raw: Raw): (r: Message)
    ensures row == seen ==> r == Enrich(row, raw)
    ensures r.tenant == row.tenant && r.conversation == row.conversation && r.direction == row.direction
    ensures r.channel == row.channel && r.visible == row.visible
  {
    var rich := Enrich(seen, raw);
    row.(body := if rich.body != seen.body then rich.body else row.body,
    occurredAt := if rich.occurredAt != seen.occurredAt then rich.occurredAt else row.occurredAt,
    media := if rich.media != seen.media then rich.media else row.media,
    delivery := if rich.delivery != seen.delivery then rich.delivery else row.delivery)
  }

  /** Insert the source and save the enriched message. */
  function Attach(s: Store, tenant: nat, m: nat, seen: Message, raw: Raw): Store
    requires m < |s.messages|
  {
    InsertSource(s.(messages := s.messages[m := SaveEnriched(s.messages[m], seen, raw)]), tenant, m, raw)
  }

  /** The savepoint of record_canonical_source: attach to the match or insert a message; a lost
      uniqueness race is answered by a second lookup. `seen` is the matched row as it was read. */
  function Settle(s: Store, tenant: nat, conversation: nat, matched: Option<nat>, seen: Message,
                  raw: Raw): (r: Recorded)
    requires matched.Some? ==> matched.value < |s.messages|
    requires forall i :: 0 <= i < |s.sources| ==> s.sources[i].message < |s.messages|
  {
    if Clashes(s, tenant, raw) then
      var found := LookupSource(s, tenant, raw).value;
      Recorded(s, Answer(s, conversation, s.sources[found]))
    else
      match matched
      case Some(m) => Recorded(ReconcileChannel(Attach(s, tenant, m, seen, raw), m), Returned(m))
      case None =>
        var m := |s.messages|;
        Recorded(ReconcileChannel(InsertSource(InsertMessage(s, NewMessage(tenant, conversation, raw)), tenant, m,
                                               raw), m),
                 Returned(m))
  }

  /** Return the source's message unless it lives in another conversation. */
  function Answer(s: Store, conversation: nat, found: Source): Outcome
    requires found.message < |s.messages|
  {
    if s.messages[found.message].conversation == conversation then Returned(found.message) else Mismatch
  }

  /** record_canonical_source run with no other writer; an exception rolls everything back. */
  function Record(merge: MergeRule, s: Store, raw: Raw): (r: Recorded)
    requires Linked(s)
  {
    match raw.reservation
    case None => Recorded(s, Skipped)
    case Some(reservation) =>
      var locked := LockConversation(s, reservation);
      var matched := HeuristicMatch(merge, locked.store, locked.conversation, raw.item);
      var settled := Settle(locked.store, reservation.tenant, locked.conversation, matched,
                            SeenRow(s, matched, raw), raw);
      if settled.outcome == Mismatch then Recorded(s, Mismatch) else settled
  }

  /** The matched row as read, or any row when there is no match. */
  function SeenRow(s: Store, matched: Option<nat>, raw: Raw): Message
    requires matched.Some? ==> matched.value < |s.messages|
  {
    if matched.Some? then s.messages[matched.value] else NewMessage(0, 0, raw)
  }

  // ---------------------------------------------------------------- invariants

  /** Foreign keys point at rows. */
  ghost predicate Linked(s: Store) {
    (forall m :: 0 <= m < |s.messages| ==> s.messages[m].conversation < |s.conversations|) &&
    (forall i :: 0 <= i < |s.sources| ==> s.sources[i].message < |s.messages|)
  }

  ghost predicate UniqueConversations(s: Store) {
    forall i, j :: 0 <= i < j < |s.conversations| ==> s.conversations[i].reservation != s.conversations[j].reservation
  }

  ghost predicate UniqueKeys(s: Store) {
    forall i, j :: 0 <= i < j < |s.sources| ==> s.sources[i].raw.key != s.sources[j].raw.key
  }

  ghost predicate UniqueIds(s: Store) {
    forall i, j :: 0 <= i < j < |s.sources| ==>
      !HasId(s.sources[i], s.sources[j].tenant, s.sources[j].provider, s.sources[j].providerId)
  }

  ghost predicate HomeOf(s: Store, m: nat, reservation: Reservation)
    requires Linked(s)
  {
    m < |s.messages| && s.messages[m].tenant == reservation.tenant &&
    s.conversations[s.messages[m].conversation].reservation == reservation
  }

  /** Every source carries its raw row's identity and lies in its raw row's conversation. */
  ghost predicate Homed(s: Store)
    requires Linked(s)
  {
    forall i :: 0 <= i < |s.sources| ==> WellHoused(s, i)
  }

  ghost predicate WellHoused(s: Store, i: nat)
    requires Linked(s) && i < |s.sources|
  {
    var x := s.sources[i];
    x.raw.reservation.Some? && HomeOf(s, x.message, x.raw.reservation.value) &&
    x == NewSource(x.raw.reservation.value.tenant, x.message, x.raw)
  }

  ghost predicate Sourced(s: Store) {
    forall m :: 0 <= m < |s.messages| ==> HasSource(s, m)
  }

  ghost predicate HasSource(s: Store, m: nat) {
    exists i :: 0 <= i < |s.sources| && s.sources[i].message == m
  }

  ghost predicate ChannexOnBooking(s: Store)
    requires Linked(s)
  {
    forall i :: 0 <= i < |s.sources| && s.sources[i].raw.key.kind == Channex ==>
      s.messages[s.sources[i].message].channel == Booking
  }

  ghost predicate TenantsAgree(s: Store)
    requires Linked(s)
  {
    forall m :: 0 <= m < |s.messages| ==>
      s.messages[m].tenant == s.conversations[s.messages[m].conversation].reservation.tenant
  }

  /** What every single insert and update keeps. */
  ghost predicate Core(s: Store) {
    Linked(s) && UniqueConversations(s) && UniqueKeys(s) && UniqueIds(s) && TenantsAgree(s) && Homed(s)
  }

  /** What every committed transaction keeps. */
  ghost predicate Valid(s: Store) {
    Core(s) && Sourced(s) && ChannexOnBooking(s)
  }

  const EMPTY_STORE := Store([], [], [])
}
