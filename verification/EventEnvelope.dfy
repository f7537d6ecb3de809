/**
 The frozen request body of one outbox event (app/services/master_sync.py), and the size
 estimate used to pack the initial inventory before event ids and sequences are known.
 */
module EventEnvelope {
  import opened CanonicalJson

  const MAX_ITEMS := 5000
  const MAX_BODY_BYTES := 5 * 1024 * 1024
  const MAX_SEQUENCE := 0x7FFF_FFFF_FFFF_FFFF
  const EVENT_SCHEMA_VERSION := 1

  function PlaceholderId(): string {
    "00000000-0000-0000-0000-000000000000"
  }

  /** A UUID as `str(uuid4())` writes it: 36 hexadecimal digits and dashes. */
  predicate IsEventId(id: string) {
    |id| == 36 && forall c <- id :: c == '-' || '0' <= c <= '9' || 'a' <= c <= 'f'
  }

  /** The event's members: the payload, with the envelope fields set over it. */
  function EventMembers(payload: seq<Member>, eventId: string, sequence: nat, eventType: string,
                        aggregateId: string, occurredAt: string, schemaVersion: int): seq<Member>
  {
    var event := Update(payload, EnvelopeMembers(eventId, sequence, eventType, occurredAt, schemaVersion));
    WithDefaults(event, aggregateId)
  }

  /** `event.update(...)`. */
  function Update(members: seq<Member>, fields: seq<Member>): seq<Member>
    decreases |fields|
  {
    if fields == [] then members
    else Update(SetMember(members, fields[0].key, fields[0].value), fields[1..])
  }

  /** The envelope fields, in the order in which they are set. */
  function EnvelopeMembers(eventId: string, sequence: nat, eventType: string, occurredAt: string,
                           schemaVersion: int): seq<Member>
  {
    [Member("schema_version", Int(schemaVersion)), Member("event_id", Str(eventId)),
     Member("sequence", Int(sequence)), Member("type", Str(eventType)),
     Member("occurred_at", Str(occurredAt))]
  }

  function WithDefaults(event: seq<Member>, aggregateId: string): seq<Member> {
    var e1 := SetDefault(event, "reference", Str(aggregateId));
    var e2 := SetDefault(e1, "actor", Null);
    SetDefault(e2, "items", Arr([]))
  }

  function FrozenEventJson(payload: seq<Member>, eventId: string, sequence: nat, eventType: string,
                           aggregateId: string, occurredAt: string, schemaVersion: int): string
  {
    var event := Obj(EventMembers(payload, eventId, sequence, eventType, aggregateId, occurredAt, schemaVersion));
    Print(Obj([Member("events", Arr([event]))]))
  }

  /** `payload.get("items", [])`, as far as it is a list. */
  function ItemCount(payload: seq<Member>): nat {
    if payload == [] then 0
    else if payload[0].key == "items" then
      if payload[0].value.Arr? then |payload[0].value.items| else 0
    else ItemCount(payload[1..])
  }

  lemma SkipMember(payload: seq<Member>)
    requires payload != [] && payload[0].key != "items"
    ensures ItemCount(payload) == ItemCount(payload[1..])
  {
  }

  /** A payload whose fourth member is the item list. */
  lemma FourthIsItems(a: Member, b: Member, c: Member, items: seq<Json>)
    requires a.key != "items" && b.key != "items" && c.key != "items"
    ensures ItemCount([a, b, c, Member("items", Arr(items))]) == |items|
  {
    var last := [Member("items", Arr(items))];
    SkipMember([a] + ([b] + ([c] + last)));
    SkipMember([b] + ([c] + last));
    SkipMember([c] + last);
    assert [a, b, c, last[0]] == [a] + ([b] + ([c] + last));
    assert ([a] + ([b] + ([c] + last)))[1..] == [b] + ([c] + last);
    assert ([b] + ([c] + last))[1..] == [c] + last && ([c] + last)[1..] == last;
  }

  /** Master's limits on one request. */
  predicate Acceptable(body: string, itemCount: nat) {
    itemCount <= MAX_ITEMS && Size(body) <= MAX_BODY_BYTES
  }

  // ----- The initial inventory -----

  /** What every part of one baseline shares. `actor` is a user name or null. */
  datatype Baseline = Baseline(code: string, actor: Json, occurredAt: string)

  function ReferencePrefix(code: string): string {
    code + ":INITIAL-INVENTORY:"
  }

  function Reference(code: string, part: nat): string {
    ReferencePrefix(code) + "PART-" + Decimal(part)
  }

  function InitialPayload(reference: string, actor: Json, items: seq<Json>): seq<Member> {
    [Member("reference", Str(reference)), Member("actor", actor),
     Member("reason_code", Str("INITIAL_ENROLLMENT")), Member("items", Arr(items))]
  }

  lemma InitialItemCount(reference: string, actor: Json, items: seq<Json>)
    ensures ItemCount(InitialPayload(reference, actor, items)) == |items|
  {
    assert "reference"[0] == 'r' && "actor"[0] == 'a' && "items"[0] == 'i';
    assert |"reason_code"| != |"items"|;
    FourthIsItems(Member("reference", Str(reference)), Member("actor", actor),
      Member("reason_code", Str("INITIAL_ENROLLMENT")), items);
  }

  function PartBody(b: Baseline, part: nat, items: seq<Json>, eventId: string, sequence: nat): string {
    var reference := Reference(b.code, part);
    FrozenEventJson(InitialPayload(reference, b.actor, items), eventId, sequence, "STOCK_SNAPSHOT",
      reference, b.occurredAt, EVENT_SCHEMA_VERSION)
  }

  /** The size of an empty part under the widest sequence SQLite can issue. */
  function Envelope(b: Baseline, part: nat): nat {
    Size(PartBody(b, part, [], PlaceholderId(), MAX_SEQUENCE))
  }

  function ContentSize(items: seq<Json>): nat {
    SizeAll(PrintAll(items)) + Commas(|items|)
  }

  function ConservativeSize(b: Baseline, part: nat, items: seq<Json>): nat {
    Envelope(b, part) + ContentSize(items)
  }

  // ----- The estimate is exact, and never below the real size -----

  /** None of the fields' keys is present yet. */
  ghost predicate Fresh(members: seq<Member>, fields: seq<Member>) {
    forall i :: 0 <= i < |fields| ==> !HasKey(members, fields[i].key)
  }

  ghost predicate Distinct(fields: seq<Member>) {
    forall i, j :: 0 <= i < j < |fields| ==> fields[i].key != fields[j].key
  }

  lemma FreshAfter(members: seq<Member>, fields: seq<Member>)
    requires fields != [] && Fresh(members, fields) && Distinct(fields)
    ensures Fresh(members + [fields[0]], fields[1..])
  {
    forall i | 0 <= i < |fields[1..]|
      ensures !HasKey(members + [fields[0]], fields[1..][i].key)
    {
      assert fields[1..][i] == fields[i + 1];
      assert !HasKey(members, fields[i + 1].key);
    }
  }

  lemma {:induction false} UpdateFresh(members: seq<Member>, fields: seq<Member>)
    requires Fresh(members, fields) && Distinct(fields)
    ensures Update(members, fields) == members + fields
    decreases |fields|
  {
    hide HasKey, SetMember;
    if fields == [] {
      assert members + fields == members;
    } else {
      var f := fields[0];
      SetMemberAppends(members, f.key, f.value);
      FreshAfter(members, fields);
      UpdateFresh(members + [f], fields[1..]);
      assert members + [f] + fields[1..] == members + fields;
    }
  }

  lemma HasDefaults(event: seq<Member>, aggregateId: string)
    requires HasKey(event, "reference") && HasKey(event, "actor") && HasKey(event, "items")
    ensures WithDefaults(event, aggregateId) == event
  {
  }

  /** The payload's keys and the envelope's begin with different letters. */
  lemma PayloadKeys(reference: string, actor: Json, items: seq<Json>)
    ensures forall m <- InitialPayload(reference, actor, items) ::
              m.key != "" && (m.key[0] == 'r' || m.key[0] == 'a' || m.key[0] == 'i')
  {
  }

  lemma EnvelopeKeys(eventId: string, sequence: nat, eventType: string, occurredAt: string)
    ensures var fields := EnvelopeMembers(eventId, sequence, eventType, occurredAt, EVENT_SCHEMA_VERSION);
      Distinct(fields)
      && forall i :: 0 <= i < |fields| ==>
          fields[i].key != "" && fields[i].key[0] != 'r' && fields[i].key[0] != 'a' && fields[i].key[0] != 'i'
  {
    assert "schema_version"[1] == 'c' && "sequence"[1] == 'e';
    assert "schema_version"[0] == 's' && "event_id"[0] == 'e' && "sequence"[0] == 's' && "type"[0] == 't'
      && "occurred_at"[0] == 'o';
  }

  lemma FreshEnvelope(reference: string, actor: Json, items: seq<Json>, eventId: string, sequence: nat,
                      eventType: string, occurredAt: string)
    ensures var fields := EnvelopeMembers(eventId, sequence, eventType, occurredAt, EVENT_SCHEMA_VERSION);
      Fresh(InitialPayload(reference, actor, items), fields) && Distinct(fields)
  {
    hide InitialPayload, EnvelopeMembers, Distinct;
    PayloadKeys(reference, actor, items);
    EnvelopeKeys(eventId, sequence, eventType, occurredAt);
  }

  lemma PayloadHasDefaults(reference: string, actor: Json, items: seq<Json>, more: seq<Member>)
    ensures var members := InitialPayload(reference, actor, items) + more;
      HasKey(members, "reference") && HasKey(members, "actor") && HasKey(members, "items")
  {
    var p := InitialPayload(reference, actor, items);
    assert p[0] in p + more && p[1] in p + more && p[3] in p + more;
  }

  lemma InitialEventMembers(reference: string, actor: Json, items: seq<Json>, eventId: string, sequence: nat,
                            eventType: string, occurredAt: string)
    ensures EventMembers(InitialPayload(reference, actor, items), eventId, sequence, eventType, reference, occurredAt,
        EVENT_SCHEMA_VERSION)
      == InitialPayload(reference, actor, items)
         + EnvelopeMembers(eventId, sequence, eventType, occurredAt, EVENT_SCHEMA_VERSION)
  {
    hide InitialPayload, EnvelopeMembers, Update, WithDefaults, Fresh, Distinct, HasKey;
    var p := InitialPayload(reference, actor, items);
    var e := EnvelopeMembers(eventId, sequence, eventType, occurredAt, EVENT_SCHEMA_VERSION);
    FreshEnvelope(reference, actor, items, eventId, sequence, eventType, occurredAt);
    UpdateFresh(p, e);
    PayloadHasDefaults(reference, actor, items, e);
    HasDefaults(p + e, reference);
  }

  function MemberSize(m: Member): nat {
    FieldSize(Field(m.key, Print(m.value)))
  }

  lemma {:induction false} ReplaceMemberSize(members: seq<Member>, i: nat, m: Member)
    requires i < |members|
    ensures FieldsSize(PrintMembers(members[i := m])) + MemberSize(members[i])
         == FieldsSize(PrintMembers(members)) + MemberSize(m)
    decreases i
  {
    hide Print, FieldSize;
    if i == 0 {
      assert members[0 := m][1..] == members[1..];
    } else {
      assert members[i := m][1..] == members[1..][i - 1 := m];
      ReplaceMemberSize(members[1..], i - 1, m);
    }
  }

  /** The size of a body, but for what it shares with every other body. */
  lemma BodySize(event: seq<Member>)
    ensures Size(Print(Obj([Member("events", Arr([Obj(event)]))])))
         == 2 + (Size(Quote("events")) + 1 + (2 + (2 + FieldsSize(PrintMembers(event)) + Commas(|event|))))
  {
    hide Quote, Size;
    var outer := [Member("events", Arr([Obj(event)]))];
    ObjectSize(outer);
    ArraySize([Obj(event)]);
    ObjectSize(event);
    assert outer[1..] == [] && [Obj(event)][1..] == [];
    assert PrintAll([Obj(event)]) == [Print(Obj(event))];
    assert SizeAll([Print(Obj(event))][1..]) == 0;
  }

  /** The nine members of a part's event. */
  function PartMembers(b: Baseline, part: nat, items: seq<Json>, eventId: string, sequence: nat): seq<Member> {
    InitialPayload(Reference(b.code, part), b.actor, items)
    + EnvelopeMembers(eventId, sequence, "STOCK_SNAPSHOT", b.occurredAt, EVENT_SCHEMA_VERSION)
  }

  lemma PartBodyMembers(b: Baseline, part: nat, items: seq<Json>, eventId: string, sequence: nat)
    ensures var members := PartMembers(b, part, items, eventId, sequence);
      && |members| == 9
      && PartBody(b, part, items, eventId, sequence) == Print(Obj([Member("events", Arr([Obj(members)]))]))
  {
    hide Print, EventMembers, Reference;
    InitialEventMembers(Reference(b.code, part), b.actor, items, eventId, sequence, "STOCK_SNAPSHOT", b.occurredAt);
  }

  function MembersSize(members: seq<Member>): nat {
    FieldsSize(PrintMembers(members))
  }

  lemma ItemsMatter(b: Baseline, part: nat, items: seq<Json>, eventId: string, sequence: nat)
    ensures MembersSize(PartMembers(b, part, items, eventId, sequence))
         == MembersSize(PartMembers(b, part, [], eventId, sequence)) + ContentSize(items)
  {
    hide Reference, Print, PrintMembers, FieldsSize, MemberSize, ContentSize;
    var empty := PartMembers(b, part, [], eventId, sequence);
    assert PartMembers(b, part, items, eventId, sequence) == empty[3 := Member("items", Arr(items))];
    ReplaceMemberSize(empty, 3, Member("items", Arr(items)));
    ItemsSize(items);
    ItemsSize([]);
  }

  lemma EventIdDoesNotMatter(b: Baseline, part: nat, items: seq<Json>, eventId: string, other: string, sequence: nat)
    requires IsEventId(eventId) && IsEventId(other)
    ensures MembersSize(PartMembers(b, part, items, eventId, sequence))
         == MembersSize(PartMembers(b, part, items, other, sequence))
  {
    hide Reference, Print, PrintMembers, FieldsSize, MemberSize, IsEventId;
    hide PartMembers;
    var before := PartMembers(b, part, items, other, sequence);
    EventIdIsFifth(b, part, items, eventId, other, sequence);
    ReplaceMemberSize(before, 5, Member("event_id", Str(eventId)));
    EventIdSize(eventId);
    EventIdSize(other);
  }

  lemma EventIdIsFifth(b: Baseline, part: nat, items: seq<Json>, eventId: string, other: string, sequence: nat)
    ensures var before := PartMembers(b, part, items, other, sequence);
      && |before| == 9 && before[5] == Member("event_id", Str(other))
      && PartMembers(b, part, items, eventId, sequence) == before[5 := Member("event_id", Str(eventId))]
  {
    hide Reference;
  }

  lemma SequenceMatters(b: Baseline, part: nat, items: seq<Json>, eventId: string, m: nat, n: nat)
    ensures MembersSize(PartMembers(b, part, items, eventId, m)) + |Decimal(n)|
         == MembersSize(PartMembers(b, part, items, eventId, n)) + |Decimal(m)|
  {
    hide Reference, Print, PrintMembers, FieldsSize, MemberSize, Decimal;
    var before := PartMembers(b, part, items, eventId, n);
    assert PartMembers(b, part, items, eventId, m) == before[6 := Member("sequence", Int(m))];
    ReplaceMemberSize(before, 6, Member("sequence", Int(m)));
    SequenceSize(m);
    SequenceSize(n);
  }

  /** How the size of a part's members depends on its items, event id and sequence. */
  lemma PartMembersSize(b: Baseline, part: nat, items: seq<Json>, eventId: string, sequence: nat)
    requires IsEventId(eventId)
    ensures MembersSize(PartMembers(b, part, items, eventId, sequence)) + |Decimal(MAX_SEQUENCE)|
         == MembersSize(PartMembers(b, part, [], PlaceholderId(), MAX_SEQUENCE))
            + ContentSize(items) + |Decimal(sequence)|
  {
    hide PartMembers, MembersSize, Decimal, IsEventId, PlaceholderId, ContentSize;
    PlaceholderIsEventId();
    SequenceMatters(b, part, items, eventId, sequence, MAX_SEQUENCE);
    EventIdDoesNotMatter(b, part, items, eventId, PlaceholderId(), MAX_SEQUENCE);
    ItemsMatter(b, part, items, PlaceholderId(), MAX_SEQUENCE);
  }

  lemma PartBodySize(b: Baseline, part: nat, items: seq<Json>, eventId: string, sequence: nat)
    requires IsEventId(eventId)
    ensures Size(PartBody(b, part, items, eventId, sequence)) + |Decimal(MAX_SEQUENCE)|
         == Envelope(b, part) + ContentSize(items) + |Decimal(sequence)|
  {
    hide PartMembers, Print, PrintMembers, FieldsSize, Size, Decimal, IsEventId, PlaceholderId, ContentSize,
         PartBody;
    PartMembersSize(b, part, items, eventId, sequence);
    PartBodyMembers(b, part, items, eventId, sequence);
    PartBodyMembers(b, part, [], PlaceholderId(), MAX_SEQUENCE);
    BodySize(PartMembers(b, part, items, eventId, sequence));
    BodySize(PartMembers(b, part, [], PlaceholderId(), MAX_SEQUENCE));
  }

  lemma ItemsSize(items: seq<Json>)
    ensures MemberSize(Member("items", Arr(items))) == Size(Quote("items")) + 3 + ContentSize(items)
    ensures ContentSize([]) == 0
  {
    ArraySize(items);
  }

  lemma PlaceholderIsEventId()
    ensures IsEventId(PlaceholderId())
  {
  }

  lemma EventIdSize(id: string)
    requires IsEventId(id)
    ensures MemberSize(Member("event_id", Str(id))) == Size(Quote("event_id")) + 1 + 38
  {
    PlainEscape(id);
    BracketsSize('"', id, '"');
  }

  lemma SequenceSize(n: nat)
    ensures MemberSize(Member("sequence", Int(n))) == Size(Quote("sequence")) + 1 + |Decimal(n)|
  {
    DecimalSize(n);
  }

  /** The incremental estimate is the exact size of the part under the widest sequence. */
  lemma EstimateExact(b: Baseline, part: nat, items: seq<Json>)
    ensures Size(PartBody(b, part, items, PlaceholderId(), MAX_SEQUENCE)) == ConservativeSize(b, part, items)
  {
    hide PartBody, Size, Decimal, PlaceholderId, IsEventId;
    PlaceholderIsEventId();
    PartBodySize(b, part, items, PlaceholderId(), MAX_SEQUENCE);
  }

  /** The real frozen event is never longer than the estimate, whatever its id and sequence. */
  lemma FrozenNeverLonger(b: Baseline, part: nat, items: seq<Json>, eventId: string, sequence: nat)
    requires IsEventId(eventId) && sequence <= MAX_SEQUENCE
    ensures Size(PartBody(b, part, items, eventId, sequence)) <= ConservativeSize(b, part, items)
  {
    hide PartBody, Size, Decimal;
    PartBodySize(b, part, items, eventId, sequence);
    DecimalMonotone(sequence, MAX_SEQUENCE);
  }

  lemma ReferenceSize(code: string, part: nat)
    ensures Size(Quote(Reference(code, part)))
         == Size(EscapeString(ReferencePrefix(code) + "PART-")) + |Decimal(part)| + 2
  {
    var head, digits := ReferencePrefix(code) + "PART-", Decimal(part);
    EscapeStringConcat(head, digits);
    DecimalPlain(part);
    PlainEscape(digits);
    SizeConcat(EscapeString(head), EscapeString(digits));
    BracketsSize('"', EscapeString(Reference(code, part)), '"');
  }

  /** The envelope never shrinks as the part number grows. */
  lemma EnvelopeMonotone(b: Baseline, m: nat, n: nat)
    requires m <= n
    ensures Envelope(b, m) <= Envelope(b, n)
  {
    hide Reference, Print, PrintMembers, FieldsSize, Size, Decimal, MemberSize, PlaceholderId, PartBody;
    var first := PartMembers(b, m, [], PlaceholderId(), MAX_SEQUENCE);
    var second := PartMembers(b, n, [], PlaceholderId(), MAX_SEQUENCE);
    var reference := Member("reference", Str(Reference(b.code, n)));
    assert second == first[0 := reference];
    ReplaceMemberSize(first, 0, reference);
    ReferenceMemberSize(b.code, m);
    ReferenceMemberSize(b.code, n);
    DecimalMonotone(m, n);
    PartBodyMembers(b, m, [], PlaceholderId(), MAX_SEQUENCE);
    PartBodyMembers(b, n, [], PlaceholderId(), MAX_SEQUENCE);
    BodySize(first);
    BodySize(second);
  }

  lemma ReferenceMemberSize(code: string, part: nat)
    ensures MemberSize(Member("reference", Str(Reference(code, part))))
         == Size(Quote("reference")) + 3 + Size(EscapeString(ReferencePrefix(code) + "PART-")) + |Decimal(part)|
  {
    ReferenceSize(code, part);
  }

  // ----- The marker of an empty baseline -----

  lemma {:induction false} EscapeBound(s: string)
    ensures Size(EscapeString(s)) <= 6 * |s|
  {
    if s != "" {
      EscapeBound(s[1..]);
      SizeConcat(EscapeChar(s[0]), EscapeString(s[1..]));
      EscapeCharBound(s[0]);
    }
  }

  lemma {:induction false} SizeBound(s: string)
    ensures Size(s) <= 4 * |s|
  {
    if s != "" {
      SizeBound(s[1..]);
    }
  }

  lemma {:induction false} AsciiSize(s: string)
    requires forall c <- s :: c as int < 0x80
    ensures Size(s) == |s|
  {
    if s != "" {
      assert s[0] in s && forall c <- s[1..] :: c in s;
      AsciiSize(s[1..]);
    }
  }

  lemma EscapeCharBound(c: char)
    ensures Size(EscapeChar(c)) <= 6
  {
    if c == '"' || c == '\\' || c == '\n' || c == '\r' || c == '\t' || c as int == 8 || c as int == 12 {
      SizeBound(EscapeChar(c));
      AsciiSize(EscapeChar(c));
    } else if c as int < 32 {
      assert |EscapeChar(c)| == 6;
      AsciiSize(EscapeChar(c));
    } else {
      SizeOne(c);
    }
  }

  lemma QuoteBound(s: string)
    ensures Size(Quote(s)) <= 2 + 6 * |s|
  {
    EscapeBound(s);
    BracketsSize('"', EscapeString(s), '"');
  }

  /** A member with a text value. */
  lemma TextMemberBound(key: string, value: string)
    ensures MemberSize(Member(key, Str(value))) <= 5 + 6 * |key| + 6 * |value|
  {
    hide Quote;
    QuoteBound(key);
    QuoteBound(value);
  }

  lemma {:induction false} MembersBound(members: seq<Member>)
    requires forall m <- members :: MemberSize(m) <= 1000
    ensures MembersSize(members) <= 1000 * |members|
    decreases |members|
  {
    hide MemberSize, MembersSize;
    if members == [] {
      NoMembers();
    } else {
      assert members[0] in members && forall m <- members[1..] :: m in members;
      MembersBound(members[1..]);
      MembersSizeHead(members);
    }
  }

  lemma NoMembers()
    ensures MembersSize([]) == 0
  {
  }

  lemma MembersSizeHead(members: seq<Member>)
    requires members != []
    ensures MembersSize(members) == MemberSize(members[0]) + MembersSize(members[1..])
  {
    hide Print, FieldSize;
  }

  lemma SmallMembers(value: int)
    requires 0 <= value < 10
    ensures MemberSize(Member("actor", Null)) <= 1000 && MemberSize(Member("items", Arr([]))) <= 1000
    ensures MemberSize(Member("schema_version", Int(value))) <= 1000
         && MemberSize(Member("sequence", Int(value))) <= 1000
  {
    hide Quote;
    QuoteBound("actor");
    QuoteBound("items");
    QuoteBound("schema_version");
    QuoteBound("sequence");
    SizeBound("null");
    SizeBound("[]");
    SizeBound(Integer(value));
  }

  /** Texts of ordinary length make a member of ordinary size. */
  predicate ShortText(s: string) {
    |s| <= 150
  }

  lemma ShortMember(key: string, value: string)
    requires |key| <= 14 && ShortText(value)
    ensures MemberSize(Member(key, Str(value))) <= 1000
  {
    TextMemberBound(key, value);
  }

  function EmptyMembers(reference: string, actor: Json, eventId: string, occurredAt: string): seq<Member> {
    InitialPayload(reference, actor, []) + EnvelopeMembers(eventId, 1, "HEARTBEAT", occurredAt, EVENT_SCHEMA_VERSION)
  }

  lemma EmptyMembersBound(reference: string, actor: Json, eventId: string, occurredAt: string)
    requires ShortText(reference) && ShortText(eventId) && ShortText(occurredAt)
    requires actor == Null || (actor.Str? && ShortText(actor.s))
    ensures forall m <- EmptyMembers(reference, actor, eventId, occurredAt) :: MemberSize(m) <= 1000
  {
    hide MemberSize;
    SmallMembers(1);
    ShortMember("reference", reference);
    if actor.Str? {
      ShortMember("actor", actor.s);
    }
    ShortMember("reason_code", "INITIAL_ENROLLMENT");
    ShortMember("event_id", eventId);
    ShortMember("type", "HEARTBEAT");
    ShortMember("occurred_at", occurredAt);
  }

  /** The marker of an empty baseline is far below Master's limit. */
  lemma EmptyMarkerSize(reference: string, actor: Json, eventId: string, occurredAt: string)
    requires ShortText(reference) && ShortText(eventId) && ShortText(occurredAt)
    requires actor == Null || (actor.Str? && ShortText(actor.s))
    ensures Size(FrozenEventJson(InitialPayload(reference, actor, []), eventId, 1, "HEARTBEAT", reference, occurredAt,
              EVENT_SCHEMA_VERSION)) <= MAX_BODY_BYTES
  {
    hide Print, MembersSize, MemberSize, Quote, Size, EventMembers, InitialPayload, EnvelopeMembers, ShortText,
         EmptyMembers;
    var members := EmptyMembers(reference, actor, eventId, occurredAt);
    EmptyIs(reference, actor, eventId, occurredAt);
    EmptyMembersBound(reference, actor, eventId, occurredAt);
    MembersBound(members);
    BodySize(members);
    SizeIs(members);
    QuoteBound("events");
  }

  lemma EmptyIs(reference: string, actor: Json, eventId: string, occurredAt: string)
    ensures EventMembers(InitialPayload(reference, actor, []), eventId, 1, "HEARTBEAT", reference, occurredAt,
              EVENT_SCHEMA_VERSION) == EmptyMembers(reference, actor, eventId, occurredAt)
    ensures |EmptyMembers(reference, actor, eventId, occurredAt)| == 9
  {
    hide EventMembers;
    InitialEventMembers(reference, actor, [], eventId, 1, "HEARTBEAT", occurredAt);
  }

  lemma SizeIs(members: seq<Member>)
    ensures MembersSize(members) == FieldsSize(PrintMembers(members))
  {
  }
}
