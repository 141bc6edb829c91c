/** Which message a raw row is given, said of the tables alone: of columns, not of the lookups, the
    candidate query and the savepoint that find it. */
module RecordAnswers {
  import opened Wrappers
  import opened Strings
  import opened CanonicalModel
  import opened CanonicalStore
  import opened CanonicalStoreLaws

  // ---------------------------------------------------------------- rows that the indexes take for one

  /** Begins, in any letter case, like the ids that are made up locally. */
  predicate MadeUpLocally(id: string) {
    "local-outbound:" <= Lower(id) || "local-outbound-image:" <= Lower(id) ||
    "local.outbound.image." <= Lower(id) || "local-inbound:" <= Lower(id)
  }

  /** A provider id of the provider's own making. */
  predicate IsProviderId(id: string) {
    id != "" && !MadeUpLocally(id)
  }

  predicate SameProvider(a: Raw, b: Raw) {
    a.key.kind == b.key.kind &&
    (a.key.kind == Outbound ==> (a.channel == Some(WhatsAppChat) <==> b.channel == Some(WhatsAppChat)))
  }

  /** The rows have one provider id, up to outer whitespace, in one tenant. */
  ghost predicate ShareId(a: Raw, b: Raw) {
    a.reservation.Some? && b.reservation.Some? && a.reservation.value.tenant == b.reservation.value.tenant &&
    SameProvider(a, b) && Strip(a.providerId) == Strip(b.providerId) && IsProviderId(Strip(a.providerId))
  }

  ghost predicate SmallLetters(p: string) {
    forall i :: 0 <= i < |p| ==> !('A' <= p[i] <= 'Z')
  }

  /** Text without capitals at the front of an id stands at the front of the id in small letters. */
  lemma SmallPrefix(p: string, id: string)
    requires p <= id && SmallLetters(p)
    ensures p <= Lower(id)
  {
    assert forall i :: 0 <= i < |p| ==> id[i] == p[i];
  }

  lemma {:induction false} PrefixesOf(prefixes: seq<string>, id: string)
    requires forall p :: p in prefixes ==> SmallLetters(p)
    ensures StartsWithAny(prefixes, id) <==> exists p :: p in prefixes && p <= Lower(id)
  {
    if prefixes != [] {
      var first, rest := SplitFirst(prefixes);
      assert prefixes[1..] == rest && forall p :: p in prefixes <==> p == first || p in rest;
      PrefixesOf(prefixes[1..], id);
      if first <= id { SmallPrefix(first, id); }
    }
  }

  lemma FourPrefixes(a: string, b: string, c: string, d: string, id: string)
    requires SmallLetters(a) && SmallLetters(b) && SmallLetters(c) && SmallLetters(d)
    ensures StartsWithAny([a, b, c, d], id) <==>
            a <= Lower(id) || b <= Lower(id) || c <= Lower(id) || d <= Lower(id)
  {
    PrefixesOf([a, b, c, d], id);
    assert a in [a, b, c, d] && b in [a, b, c, d] && c in [a, b, c, d] && d in [a, b, c, d];
  }

  lemma SyntheticIffMadeUp(id: string)
    ensures IsSynthetic(id) <==> MadeUpLocally(id)
  {
    FourPrefixes("local-outbound:", "local-outbound-image:", "local.outbound.image.", "local-inbound:", id);
  }

  /** The columns of every source are those of its raw row. */
  ghost predicate ToldByRow(x: Source) {
    x.raw.reservation.Some? && x.tenant == x.raw.reservation.value.tenant &&
    x.providerId == (if IsProviderId(Strip(x.raw.providerId)) then Some(Strip(x.raw.providerId)) else None) &&
    match x.raw.key.kind
    case Channex => x.provider == ChannexApi
    case WhatsApp => x.provider == Waba
    case Inbound => x.provider == Imap
    case Outbound => x.provider == (if x.raw.channel == Some(WhatsAppChat) then StayOutbound else Smtp)
  }

  lemma CanonicalIdIs(raw: Raw)
    ensures CanonicalId(raw) == if IsProviderId(Strip(raw.providerId)) then Some(Strip(raw.providerId)) else None
  {
    SyntheticIffMadeUp(Strip(raw.providerId));
  }

  lemma SharedIdIff(a: Raw, b: Raw)
    requires a.reservation.Some? && b.reservation.Some?
    ensures ShareId(a, b) <==>
            a.reservation.value.tenant == b.reservation.value.tenant && ProviderOf(a) == ProviderOf(b) &&
            CanonicalId(a) == CanonicalId(b) && CanonicalId(b).Some?
  {
    CanonicalIdIs(a);
    CanonicalIdIs(b);
  }

  lemma BlocksIff(s: Store, i: nat, raw: Raw)
    requires Core(s) && i < |s.sources| && raw.reservation.Some?
    ensures Blocks(s.sources[i], raw.reservation.value.tenant, raw) <==>
            s.sources[i].raw.key == raw.key || ShareId(s.sources[i].raw, raw)
  {
    assert WellHoused(s, i);
    SharedIdIff(s.sources[i].raw, raw);
  }

  /** In every valid store the sources' columns are read off their rows, and no two sources have one
      raw row or share a provider id. */
  lemma SourcesAreTold(s: Store)
    requires Valid(s)
    ensures forall i :: 0 <= i < |s.sources| ==> ToldByRow(s.sources[i])
    ensures forall i, j :: 0 <= i < j < |s.sources| ==>
              s.sources[i].raw.key != s.sources[j].raw.key && !ShareId(s.sources[i].raw, s.sources[j].raw)
  {
    forall i | 0 <= i < |s.sources| ensures ToldByRow(s.sources[i]) {
      assert WellHoused(s, i);
      CanonicalIdIs(s.sources[i].raw);
    }
    forall i, j | 0 <= i < j < |s.sources|
      ensures s.sources[i].raw.key != s.sources[j].raw.key && !ShareId(s.sources[i].raw, s.sources[j].raw)
    {
      assert WellHoused(s, i) && WellHoused(s, j);
      SharedIdIff(s.sources[i].raw, s.sources[j].raw);
    }
  }

  // ---------------------------------------------------------------- messages that a row joins

  /** Shown in the row's conversation, in its direction, and at most 15 minutes (inbound) or 3
      minutes (outbound) away. */
  ghost predicate Near(s: Store, raw: Raw, m: nat)
    requires Linked(s)
  {
    raw.reservation.Some? && raw.item.occurredAt.Some? && LivesIn(s, m, raw.reservation.value) &&
    s.messages[m].visible && raw.item.direction == Some(s.messages[m].direction) &&
    var gap := if s.messages[m].direction == InboundDir then 900_000_000 else 180_000_000;
    -gap <= raw.item.occurredAt.value - s.messages[m].occurredAt <= gap
  }

  /** The merge rule takes the row's item and some source's, or the message's own, for one message. */
  ghost predicate Alike(merge: MergeRule, s: Store, raw: Raw, m: nat)
    requires m < |s.messages|
  {
    (exists i :: IsSource(s, i, m) && merge(raw.item, s.sources[i].raw.item)) ||
    var row := s.messages[m];
    merge(raw.item, Item(Some(row.direction), row.body, Some(row.occurredAt),
                         if row.media == "" then "text" else "image", None))
  }

  ghost predicate Joins(merge: MergeRule, s: Store, raw: Raw, m: nat)
    requires Linked(s)
  {
    Near(s, raw, m) && Alike(merge, s, raw, m)
  }

  lemma SuitsIffJoins(merge: MergeRule, s: Store, raw: Raw, m: nat)
    requires Core(s) && raw.reservation.Some?
    ensures var l := LockConversation(s, raw.reservation.value);
            Suits(merge, l.store, l.conversation, raw.item, m) <==> Joins(merge, s, raw, m)
  {
    var l := LockConversation(s, raw.reservation.value);
    LockKeepsCore(s, raw.reservation.value);
    if m < |s.messages| {
      var c := s.messages[m].conversation;
      assert l.store.conversations[c] == s.conversations[c];
      assert c == l.conversation <==> s.conversations[c].reservation == raw.reservation.value;
      MergesIffAlike(merge, l.store, s, raw, m);
    }
  }

  lemma MergesIffAlike(merge: MergeRule, l: Store, s: Store, raw: Raw, m: nat)
    requires m < |s.messages| && l.messages == s.messages && l.sources == s.sources
    ensures Merges(merge, l, raw.item, m) <==> Alike(merge, s, raw, m)
  {
    assert forall i :: IsSource(s, i, m) <==> 0 <= i < |l.sources| && l.sources[i].message == m;
  }

  // ---------------------------------------------------------------- the answer

  /** The row has a source of its own or shares a provider id with a row that has one. */
  ghost predicate IsKnown(s: Store, raw: Raw) {
    exists i :: 0 <= i < |s.sources| && (s.sources[i].raw.key == raw.key || ShareId(s.sources[i].raw, raw))
  }

  lemma KnownIffClashes(s: Store, raw: Raw)
    requires Core(s) && raw.reservation.Some?
    ensures IsKnown(s, raw) <==> Clashes(s, raw.reservation.value.tenant, raw)
  {
    forall i | 0 <= i < |s.sources|
      ensures Blocks(s.sources[i], raw.reservation.value.tenant, raw) <==>
              s.sources[i].raw.key == raw.key || ShareId(s.sources[i].raw, raw)
    {
      BlocksIff(s, i, raw);
    }
  }

  lemma UnroutedIsSkipped(merge: MergeRule, s: Store, raw: Raw)
    requires Linked(s) && raw.reservation.None?
    ensures Record(merge, s, raw) == Recorded(s, Skipped)
  {
  }

  /** A known row is given the message of its own source, else of the one that shares its id, when
      that message is in the row's conversation; no message and no source is written. */
  lemma KnownIsAnswered(merge: MergeRule, s: Store, raw: Raw) returns (i: nat)
    requires Valid(s) && raw.reservation.Some? && IsKnown(s, raw)
    ensures i < |s.sources| && s.sources[i].message < |s.messages|
    ensures s.sources[i].raw.key == raw.key ||
            (ShareId(s.sources[i].raw, raw) && forall j :: 0 <= j < |s.sources| ==> s.sources[j].raw.key != raw.key)
    ensures var r := Record(merge, s, raw);
            r.store.messages == s.messages && r.store.sources == s.sources &&
            r.outcome == if LivesIn(s, s.sources[i].message, raw.reservation.value)
                         then Returned(s.sources[i].message) else Mismatch
  {
    KnownIffClashes(s, raw);
    var tenant := raw.reservation.value.tenant;
    i := LookupSource(s, tenant, raw).value;
    BlocksIff(s, i, raw);
    var m := s.sources[i].message;
    assert Resolves(s, raw, m);
    RecordAgain(merge, s, raw, m);
  }

  /** A new row joins the first message, by time and id, that is near and alike: the message gets it
      as a source, and no message is written. */
  lemma JoinerIsTaken(merge: MergeRule, s: Store, raw: Raw, m: nat)
    requires Valid(s) && raw.reservation.Some? && !IsKnown(s, raw) && Joins(merge, s, raw, m)
    requires forall k: nat :: Joins(merge, s, raw, k) && k != m ==>
               s.messages[m].occurredAt < s.messages[k].occurredAt ||
               (s.messages[m].occurredAt == s.messages[k].occurredAt && m < k)
    ensures var r := Record(merge, s, raw);
            r.outcome == Returned(m) && |r.store.messages| == |s.messages| &&
            |r.store.sources| == |s.sources| + 1 && s.sources <= r.store.sources &&
            r.store.sources[|s.sources|].message == m && r.store.sources[|s.sources|].raw == raw
  {
    KnownIffClashes(s, raw);
    var locked, conversation, matched := RecordCases(merge, s, raw);
    forall k: nat ensures Suits(merge, locked, conversation, raw.item, k) <==> Joins(merge, s, raw, k) {
      SuitsIffJoins(merge, s, raw, k);
    }
    MatchIsUnique(merge, locked, conversation, raw.item, Some(m));
  }

  /** A new row that is near and alike to no message gets a message of its own in its conversation. */
  lemma StrangerIsBorn(merge: MergeRule, s: Store, raw: Raw)
    requires Valid(s) && raw.reservation.Some? && !IsKnown(s, raw)
    requires forall k: nat :: !Joins(merge, s, raw, k)
    ensures var r := Record(merge, s, raw);
            r.outcome == Returned(|s.messages|) && |r.store.messages| == |s.messages| + 1 &&
            Linked(r.store) && LivesIn(r.store, |s.messages|, raw.reservation.value) &&
            |r.store.sources| == |s.sources| + 1 && s.sources <= r.store.sources &&
            r.store.sources[|s.sources|].message == |s.messages| && r.store.sources[|s.sources|].raw == raw
  {
    KnownIffClashes(s, raw);
    RecordKeepsValid(merge, s, raw);
    var locked, conversation, matched := RecordCases(merge, s, raw);
    forall k: nat ensures !Suits(merge, locked, conversation, raw.item, k) {
      SuitsIffJoins(merge, s, raw, k);
    }
    MatchIsUnique(merge, locked, conversation, raw.item, None);
  }
}
