/** The store as mutable tables, written to step by step as the ORM calls do. Every method is
    proved against the functions of CanonicalStore. */
module CanonicalStoreRows {
  import opened Wrappers
  import opened Strings
  import opened CanonicalModel
  import opened CanonicalStore
  import opened CanonicalStoreLaws

  class StoreRows {
    const merge: MergeRule
    var conversations: seq<Conversation>
    var messages: seq<Message>
    var sources: seq<Source>

    function View(): Store
      reads this
    {
      Store(conversations, messages, sources)
    }

    constructor (merge: MergeRule)
      ensures View() == EMPTY_STORE && this.merge == merge
    {
      this.merge := merge;
      conversations, messages, sources := [], [], [];
    }

    method LockConversation(reservation: Reservation) returns (id: nat)
      modifies this`conversations
      ensures Locked(View(), id) == CanonicalStore.LockConversation(old(View()), reservation)
    {
      var found := FindConversation(View(), reservation);
      if found.Some? {
        return found.value;
      }
      id := |conversations|;
      conversations := conversations + [Conversation(reservation)];
    }

    method LookupSource(tenant: nat, raw: Raw) returns (r: Option<nat>)
      ensures r == CanonicalStore.LookupSource(View(), tenant, raw)
    {
      r := FindByKey(View(), raw.key);
      if r.Some? { return; }
      var id := CanonicalId(raw);
      if id.Some? {
        r := FindById(View(), tenant, ProviderOf(raw), id);
      }
    }

    /** The locked candidate rows, in the query's order. */
    method LockHeuristicCandidates(conversation: nat, item: Item) returns (ids: seq<nat>)
      ensures Ordered(messages, ids)
      ensures forall k :: k in ids <==> 0 <= k < |messages| && Candidate(View(), conversation, item, k)
    {
      if item.occurredAt.None? || item.direction.None? {
        return [];
      }
      var store, direction, at := View(), item.direction.value, item.occurredAt.value;
      var keep := (k: nat) => IsCandidate(store, conversation, direction, at, k);
      ids := OrderedIds(messages, keep, |messages|);
      OrderedIdsAreOrdered(messages, keep, |messages|);
    }

    method SourceMerges(item: Item, m: nat) returns (yes: bool)
      ensures yes <==> exists i :: 0 <= i < |sources| && sources[i].message == m && merge(item, sources[i].raw.item)
    {
      for i := 0 to |sources|
        invariant forall j :: 0 <= j < i && sources[j].message == m ==> !merge(item, sources[j].raw.item)
      {
        if sources[i].message == m && merge(item, sources[i].raw.item) {
          return true;
        }
      }
      return false;
    }

    /** The first candidate, by time and id, of which some source or the message itself merges. */
    method HeuristicMatch(item: Item, ghost conversation: nat, candidates: seq<nat>) returns (r: Option<nat>)
      requires Ordered(messages, candidates)
      requires forall k :: k in candidates <==> 0 <= k < |messages| && Candidate(View(), conversation, item, k)
      ensures r == CanonicalStore.HeuristicMatch(merge, View(), conversation, item)
    {
      r := None;
      for c := 0 to |candidates|
        invariant r.None?
        invariant forall j :: 0 <= j < c ==> !Merges(merge, View(), item, candidates[j])
      {
        var m := candidates[c];
        var yes := SourceMerges(item, m);
        if yes || merge(item, FallbackItem(messages[m])) {
          r := Some(m);
          assert m in candidates;
          break;
        }
      }
      MatchIsUnique(merge, View(), conversation, item, r);
    }

    method InsertMessage(tenant: nat, conversation: nat, raw: Raw) returns (m: nat)
      modifies this`messages
      ensures m == |old(messages)| && messages == old(messages) + [NewMessage(tenant, conversation, raw)]
    {
      m := |messages|;
      var message := NewMessage(tenant, conversation, raw).(media := "");
      if raw.media != "" {
        message := message.(media := raw.media);
      }
      messages := messages + [message];
    }

    /** Insert under the unique indexes; false is the IntegrityError. */
    method InsertSource(tenant: nat, m: nat, raw: Raw) returns (ok: bool)
      modifies this`sources
      ensures ok <==> !Clashes(old(View()), tenant, raw)
      ensures sources == if ok then old(sources) + [NewSource(tenant, m, raw)] else old(sources)
    {
      ok := !Clashes(View(), tenant, raw);
      if ok {
        sources := sources + [NewSource(tenant, m, raw)];
      }
    }

    method EnrichMessage(m: nat, raw: Raw)
      requires m < |messages|
      modifies this`messages
      ensures messages == old(messages)[m := Enrich(old(messages)[m], raw)]
    {
      var row := messages[m];
      var incoming := Strip(raw.item.body);
      if incoming != "" && (Strip(row.body) == "" || |incoming| > |Strip(row.body)|) {
        row := row.(body := raw.item.body);
      }
      var at := raw.item.occurredAt;
      if at.Some? && at.value < row.occurredAt {
        row := row.(occurredAt := at.value);
      }
      if row.media == "" && raw.media != "" {
        row := row.(media := raw.media);
      }
      if Strip(row.delivery) == "" {
        var status := DeliveryOf(raw);
        if status != "" {
          row := row.(delivery := status);
        }
      }
      messages := messages[m := row];
    }

    method ReconcileChannel(m: nat)
      requires m < |messages|
      modifies this`messages
      ensures View() == CanonicalStore.ReconcileChannel(old(View()), m)
    {
      if HasChannex(View(), m) && messages[m].channel != Booking {
        messages := messages[m := messages[m].(channel := Booking)];
      } else {
        assert HasChannex(View(), m) ==> messages[m := messages[m].(channel := Booking)] == messages;
      }
    }

    /** The savepoint: attach or insert, and on a uniqueness violation roll back and look again.
        The second lookup always finds the row that won. */
    method Settle(tenant: nat, conversation: nat, matched: Option<nat>, raw: Raw) returns (outcome: Outcome)
      requires matched.Some? ==> matched.value < |messages|
      requires forall i :: 0 <= i < |sources| ==> sources[i].message < |messages|
      modifies this`messages, this`sources
      ensures Recorded(View(), outcome) ==
              CanonicalStore.Settle(old(View()), tenant, conversation, matched, SeenRow(old(View()), matched, raw), raw)
    {
      ghost var before := View();
      var savedMessages := messages;
      var m: nat;
      if matched.Some? {
        m := matched.value;
      } else {
        m := InsertMessage(tenant, conversation, raw);
      }
      var ok := InsertSource(tenant, m, raw);
      if ok {
        if matched.Some? {
          EnrichMessage(m, raw);
          assert View() == Attach(before, tenant, m, before.messages[m], raw);
        }
        ReconcileChannel(m);
        return Returned(m);
      }
      messages := savedMessages;
      assert View() == before;
      var found := LookupSource(tenant, raw);
      return Answer(View(), conversation, sources[found.value]);
    }

    /** Record one raw row; the mismatch exception leaves every table as it was. */
    method RecordCanonicalSource(raw: Raw) returns (outcome: Outcome)
      requires Core(View())
      modifies this
      ensures Recorded(View(), outcome) == Record(merge, old(View()), raw)
    {
      if raw.reservation.None? {
        return Skipped;
      }
      ghost var before := View();
      var savedConversations := conversations;
      var tenant := raw.reservation.value.tenant;
      var conversation := LockConversation(raw.reservation.value);
      LockKeepsCore(before, raw.reservation.value);
      var found := LookupSource(tenant, raw);
      if found.Some? {
        outcome := Answer(View(), conversation, sources[found.value]);
      } else {
        var candidates := LockHeuristicCandidates(conversation, raw.item);
        var matched := HeuristicMatch(raw.item, conversation, candidates);
        outcome := Settle(tenant, conversation, matched, raw);
      }
      if outcome == Mismatch {
        conversations := savedConversations;
        assert View() == before;
      }
    }
  }
}
