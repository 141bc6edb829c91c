/** The rows of the canonical guest-message store and what is read off one raw ingest row. */
module CanonicalModel {
  import opened Wrappers
  import opened Strings

  datatype Direction = InboundDir | OutboundDir

  datatype Channel = Email | Booking | WhatsAppChat

  datatype RawKind = Channex | WhatsApp | Inbound | Outbound

  datatype Provider = ChannexApi | Waba | Imap | StayOutbound | Smtp

  datatype SendStatus = SendSent | SendFailed | SendOther

  datatype RawKey = RawKey(kind: RawKind, pk: nat)

  datatype Reservation = Reservation(pk: nat, tenant: nat)

  /** The timeline item that the serializers make of one raw row; an empty direction is None. */
  datatype Item = Item(direction: Option<Direction>, body: string, occurredAt: Option<int>,
                       messageType: string, mediaUrl: Option<string>)

  /** An immutable raw ingest row. `fromProperty` is a Channex row sent by the property or an
      outbound WhatsApp row; `channel` is the channel column of inbound and outbound rows. */
  datatype Raw = Raw(key: RawKey, reservation: Option<Reservation>, channel: Option<Channel>,
                     providerId: string, fromProperty: bool, status: SendStatus, delivery: string,
                     media: string, createdAt: int, item: Item)

  datatype Conversation = Conversation(reservation: Reservation)

  datatype Message = Message(tenant: nat, conversation: nat, direction: Direction, channel: Channel,
                             body: string, media: string, occurredAt: int, delivery: string, visible: bool)

  datatype Source = Source(tenant: nat, message: nat, provider: Provider, providerId: Option<string>, raw: Raw)

  /** Whether two timeline items are the same message seen twice; any rule at all. */
  type MergeRule = (Item, Item) -> bool

  const MERGE_WINDOW_INBOUND: nat := 900_000_000
  const MERGE_WINDOW_OUTBOUND: nat := 180_000_000

  function Window(direction: Direction): nat {
    if direction == InboundDir then MERGE_WINDOW_INBOUND else MERGE_WINDOW_OUTBOUND
  }

  function ProviderOf(raw: Raw): Provider {
    match raw.key.kind
    case Channex => ChannexApi
    case WhatsApp => Waba
    case Inbound => Imap
    case Outbound => if raw.channel == Some(WhatsAppChat) then StayOutbound else Smtp
  }

  function ProductChannel(raw: Raw): Channel {
    match raw.key.kind
    case Channex => Booking
    case WhatsApp => WhatsAppChat
    case Inbound => raw.channel.GetOr(Email)
    case Outbound => raw.channel.GetOr(Email)
  }

  const SYNTHETIC_ID_PREFIXES := ["local-outbound:", "local-outbound-image:", "local.outbound.image.", "local-inbound:"]

  predicate StartsWithAny(prefixes: seq<string>, id: string) {
    prefixes != [] && (prefixes[0] <= id || prefixes[0] <= Lower(id) || StartsWithAny(prefixes[1..], id))
  }

  predicate IsSynthetic(id: string) {
    StartsWithAny(SYNTHETIC_ID_PREFIXES, id)
  }

  /** The stable provider id of a raw row; none when blank or made up locally. */
  function CanonicalId(raw: Raw): Option<string> {
    var value := Strip(raw.providerId);
    if value == "" || IsSynthetic(value) then None else Some(value)
  }

  lemma CanonicalIdIsStable(raw: Raw)
    ensures CanonicalId(raw).Some? ==>
              var id := CanonicalId(raw).value;
              id != "" && Trimmed(id) && !IsSynthetic(id) && CanonicalId(raw.(providerId := id)) == Some(id)
  {
    StripIsTrimmed(raw.providerId);
    StripOfTrimmed(Strip(raw.providerId));
  }

  function DeliveryOf(raw: Raw): string {
    match raw.key.kind
    case Outbound =>
      var delivery := Strip(raw.delivery);
      if delivery != "" then delivery
      else if raw.status == SendSent then "sent"
      else if raw.status == SendFailed then "failed"
      else ""
    case Channex => if raw.fromProperty then "sent" else ""
    case WhatsApp => if raw.fromProperty then "sent" else ""
    case Inbound => ""
  }

  function TimeOf(raw: Raw): int {
    raw.item.occurredAt.GetOr(raw.createdAt)
  }

  function DirectionOf(raw: Raw): Direction {
    raw.item.direction.GetOr(InboundDir)
  }

  function BodySize(raw: Raw): nat {
    |Strip(raw.item.body)|
  }

  /** The message row a raw row gives rise to when nothing matches it. */
  function NewMessage(tenant: nat, conversation: nat, raw: Raw): Message {
    Message(tenant, conversation, DirectionOf(raw), ProductChannel(raw), raw.item.body, raw.media,
            TimeOf(raw), DeliveryOf(raw), true)
  }

  function NewSource(tenant: nat, message: nat, raw: Raw): Source {
    Source(tenant, message, ProviderOf(raw), CanonicalId(raw), raw)
  }

  /** The message row after a further raw row has been attached to it. */
  function Enrich(m: Message, raw: Raw): Message {
    var incoming := Strip(raw.item.body);
    var longer := incoming != "" && (Strip(m.body) == "" || |incoming| > |Strip(m.body)|);
    var body := if longer then raw.item.body else m.body;
    var at := raw.item.occurredAt;
    m.(body := body,
    occurredAt := if at.Some? && at.value < m.occurredAt then at.value else m.occurredAt,
    media := if m.media == "" then raw.media else m.media,
    delivery := if Strip(m.delivery) == "" && DeliveryOf(raw) != "" then DeliveryOf(raw) else m.delivery)
  }

  /** The item a message is compared by when none of its sources matched. */
  function FallbackItem(m: Message): Item {
    Item(Some(m.direction), m.body, Some(m.occurredAt), if m.media != "" then "image" else "text", None)
  }

  /** Two raw rows whose sources cannot both be stored under the unique indexes of one tenant. */
  predicate Collide(a: Raw, b: Raw) {
    a.key == b.key ||
    (CanonicalId(a).Some? && CanonicalId(a) == CanonicalId(b) && ProviderOf(a) == ProviderOf(b))
  }
}
