/**
 What Master reads in a frozen body (app/services/master_sync.py:180-202): the event by its keys, however the
 dictionary was built and printed.
 */
module FrozenBodies {
  import opened Options
  import opened CanonicalJson
  import opened CanonicalOrder
  import opened JsonReader
  import opened EventEnvelope
  import opened BaselinePacking
  import opened Outbox
  import opened OutboxRuns
  import opened OutboxTheorems

  // ----- Dictionaries by key -----

  function Lookup(members: seq<Member>, key: string): Option<Json> {
    if members == [] then None
    else if members[0].key == key then Some(members[0].value)
    else Lookup(members[1..], key)
  }

  lemma {:induction false} LookupHasKey(members: seq<Member>, key: string)
    ensures HasKey(members, key) <==> Lookup(members, key).Some?
  {
    if members != [] {
      LookupHasKey(members[1..], key);
      assert members == [members[0]] + members[1..];
    }
  }

  lemma {:induction false} LookupSet(members: seq<Member>, key: string, value: Json, k: string)
    ensures Lookup(SetMember(members, key, value), k) == if k == key then Some(value) else Lookup(members, k)
  {
    if members != [] && members[0].key != key {
      LookupSet(members[1..], key, value, k);
    }
  }

  lemma {:induction false} LookupAppend(members: seq<Member>, m: Member, k: string)
    ensures Lookup(members + [m], k) ==
              if Lookup(members, k).Some? then Lookup(members, k) else if k == m.key then Some(m.value) else None
  {
    if members == [] {
      assert members + [m] == [m];
    } else {
      LookupAppend(members[1..], m, k);
      assert (members + [m])[1..] == members[1..] + [m];
    }
  }

  lemma LookupDefault(members: seq<Member>, key: string, value: Json, k: string)
    ensures Lookup(SetDefault(members, key, value), k) ==
              if k == key && Lookup(members, key).None? then Some(value) else Lookup(members, k)
  {
    hide Lookup, HasKey;
    LookupHasKey(members, key);
    LookupAppend(members, Member(key, value), k);
  }

  lemma {:induction false} SetKeepsDistinct(members: seq<Member>, key: string, value: Json)
    requires DistinctKeys(members)
    ensures DistinctKeys(SetMember(members, key, value))
  {
    if members != [] && members[0].key != key {
      var rest := members[1..];
      SetKeepsDistinct(rest, key, value);
      forall j | 0 <= j < |SetMember(rest, key, value)|
        ensures SetMember(rest, key, value)[j].key != members[0].key
      {
        SetKeys(rest, key, value, j);
      }
    }
  }

  lemma {:induction false} SetKeys(members: seq<Member>, key: string, value: Json, j: nat)
    requires j < |SetMember(members, key, value)|
    ensures var k := SetMember(members, key, value)[j].key;
            k == key || (j < |members| && k == members[j].key)
  {
    if members != [] && members[0].key != key && j > 0 {
      SetKeys(members[1..], key, value, j - 1);
    }
  }

  lemma DefaultKeepsDistinct(members: seq<Member>, key: string, value: Json)
    requires DistinctKeys(members)
    ensures DistinctKeys(SetDefault(members, key, value))
  {
    forall i | 0 <= i < |members|
      ensures !HasKey(members, key) ==> members[i].key != key
    {
      assert members[i] in members;
    }
  }

  lemma {:induction false} LookupMember(members: seq<Member>, m: Member)
    requires DistinctKeys(members) && m in members
    ensures Lookup(members, m.key) == Some(m.value)
  {
    if members[0] != m {
      assert members == [members[0]] + members[1..];
      HeadKeyIsNew(members);
      LookupMember(members[1..], m);
    }
  }

  // ----- Sorted and canonical dictionaries -----

  lemma {:induction false} LookupInsert(m: Member, sorted: seq<Member>, k: string)
    requires Lookup(sorted, m.key).None?
    ensures Lookup(InsertMember(m, sorted), k) == if k == m.key then Some(m.value) else Lookup(sorted, k)
  {
    hide KeyLess;
    if sorted != [] && !KeyLess(m.key, sorted[0].key) {
      LookupInsert(m, sorted[1..], k);
    }
  }

  lemma {:induction false} LookupSorted(members: seq<Member>, k: string)
    requires DistinctKeys(members)
    ensures Lookup(SortMembers(members), k) == Lookup(members, k)
  {
    hide InsertMember, KeyLess;
    if members != [] {
      LookupSorted(members[1..], k);
      LookupSorted(members[1..], members[0].key);
      HeadKeyIsNew(members);
      LookupInsert(members[0], SortMembers(members[1..]), k);
    }
  }

  lemma HeadKeyIsNew(members: seq<Member>)
    requires members != [] && DistinctKeys(members)
    ensures Lookup(members[1..], members[0].key).None?
  {
    NoSuchKey(members[1..], members[0].key);
  }

  lemma {:induction false} NoSuchKey(members: seq<Member>, key: string)
    requires forall i :: 0 <= i < |members| ==> members[i].key != key
    ensures Lookup(members, key).None?
  {
    if members != [] {
      NoSuchKey(members[1..], key);
    }
  }

  lemma {:induction false} LookupCanonical(members: seq<Member>, k: string)
    ensures Lookup(CanonicalMembers(members), k) ==
              match Lookup(members, k) { case None => None case Some(v) => Some(Canonical(v)) }
    decreases |members|
  {
    hide Canonical;
    if members != [] {
      LookupCanonical(members[1..], k);
    }
  }

  // ----- The order of keys -----

  /** Code point order: the first difference decides, and a prefix comes first. */
  ghost predicate Before(a: string, b: string) {
    a < b || exists k: nat :: DiffersAt(a, b, k)
  }

  ghost predicate DiffersAt(a: string, b: string, k: nat) {
    k < |a| && k < |b| && a[..k] == b[..k] && a[k] < b[k]
  }

  lemma {:induction false} LessIsBefore(a: string, b: string)
    requires KeyLess(a, b)
    ensures Before(a, b)
  {
    if a == "" {
      assert a < b;
    } else if a[0] < b[0] {
      assert DiffersAt(a, b, 0);
    } else {
      LessIsBefore(a[1..], b[1..]);
      assert a == [a[0]] + a[1..] && b == [b[0]] + b[1..];
      if k: nat :| DiffersAt(a[1..], b[1..], k) {
        assert a[..k + 1] == [a[0]] + a[1..][..k] && b[..k + 1] == [b[0]] + b[1..][..k];
        assert DiffersAt(a, b, k + 1);
      }
    }
  }

  ghost predicate Ascending(members: seq<Member>) {
    forall i, j :: 0 <= i < j < |members| ==> Before(members[i].key, members[j].key)
  }

  ghost predicate SameKeys(fields: seq<Field>, members: seq<Member>) {
    |fields| == |members| && forall i :: 0 <= i < |fields| ==> fields[i].key == members[i].key
  }

  lemma {:induction false} SortKeys(fields: seq<Field>, members: seq<Member>)
    requires SameKeys(fields, members)
    ensures SameKeys(SortFields(fields), SortMembers(members))
    decreases |fields|
  {
    hide InsertField, InsertMember;
    if fields != [] {
      SortKeys(fields[1..], members[1..]);
      InsertSameKeys(fields[0], members[0], SortFields(fields[1..]), SortMembers(members[1..]));
    }
  }

  lemma {:induction false} InsertSameKeys(f: Field, m: Member, fields: seq<Field>, members: seq<Member>)
    requires SameKeys(fields, members) && f.key == m.key
    ensures SameKeys(InsertField(f, fields), InsertMember(m, members))
    decreases |fields|
  {
    hide KeyLess;
    if fields != [] && !KeyLess(f.key, fields[0].key) {
      InsertSameKeys(f, m, fields[1..], members[1..]);
    }
  }

  /** The members of a dictionary, sorted, have ascending keys. */
  lemma SortedAscends(members: seq<Member>)
    requires DistinctKeys(members)
    ensures Ascending(SortMembers(members))
  {
    hide KeyLess, SortFields, SortMembers, PrintMembers, Print, Before;
    var fields := PrintMembers(members);
    forall i | 0 <= i < |members|
      ensures fields[i].key == members[i].key
    {
      PrintMembersAt(members, i);
    }
    SortKeys(fields, members);
    PrintMembersDistinct(members);
    SortFieldsSorts(fields);
    SortKeepsDistinct(fields);
    var sorted := SortFields(fields);
    forall i, j | 0 <= i < j < |sorted|
      ensures Before(sorted[i].key, sorted[j].key)
    {
      KeyLessTotal(sorted[i].key, sorted[j].key);
      LessIsBefore(sorted[i].key, sorted[j].key);
    }
  }

  // ----- The event of a body -----

  /** The one event of a request body, read from its text. */
  function ReadEvent(body: string): Option<seq<Member>> {
    var v :- Read(body);
    if v.Obj? && |v.members| == 1 && v.members[0].key == "events" then
      var list := v.members[0].value;
      if list.Arr? && |list.items| == 1 && list.items[0].Obj? then Some(list.items[0].members) else None
    else None
  }

  /** A payload as Python builds it: a dictionary, of values that can be printed. */
  ghost predicate IsPayload(payload: seq<Member>) {
    DistinctKeys(payload) && forall m <- payload :: Printable(m.value)
  }

  /** The envelope's five keys are set, three more default only when absent, and everything else is the payload's. */
  ghost predicate Carries(event: seq<Member>, r: Request, sequence: nat) {
    && Lookup(event, "type") == Some(Str(r.eventType))
    && Lookup(event, "occurred_at") == Some(Str(r.occurredAt))
    && Lookup(event, "event_id") == Some(Str(r.eventId))
    && Lookup(event, "sequence") == Some(Int(sequence))
    && Lookup(event, "schema_version") == Some(Int(1))
    && (forall k | k !in {"type", "occurred_at", "event_id", "sequence", "schema_version"} ::
          Lookup(event, k) == Given(r, k))
  }

  /** What the payload holds under a key, its objects sorted, or the default. */
  ghost function Given(r: Request, key: string): Option<Json> {
    match Lookup(r.payload, key)
    case Some(v) => Some(Canonical(v))
    case None =>
      match key
      case "reference" => Some(Str(r.aggregateId))
      case "actor" => Some(Null)
      case "items" => Some(Arr([]))
      case _ => None
  }

  lemma {:induction false} LookupUpdate(members: seq<Member>, fields: seq<Member>, k: string)
    requires DistinctKeys(fields)
    ensures Lookup(Update(members, fields), k) ==
              if Lookup(fields, k).Some? then Lookup(fields, k) else Lookup(members, k)
    decreases |fields|
  {
    hide SetMember;
    if fields != [] {
      LookupSet(members, fields[0].key, fields[0].value, k);
      LookupUpdate(SetMember(members, fields[0].key, fields[0].value), fields[1..], k);
      HeadKeyIsNew(fields);
    }
  }

  lemma {:induction false} UpdateIsPayload(members: seq<Member>, fields: seq<Member>)
    requires IsPayload(members) && forall m <- fields :: Printable(m.value)
    ensures IsPayload(Update(members, fields))
    decreases |fields|
  {
    hide SetMember, Printable, DistinctKeys;
    if fields != [] {
      assert fields[0] in fields && forall m <- fields[1..] :: m in fields;
      SetKeepsDistinct(members, fields[0].key, fields[0].value);
      SetIsPrintable(members, fields[0].key, fields[0].value);
      UpdateIsPayload(SetMember(members, fields[0].key, fields[0].value), fields[1..]);
    }
  }

  lemma {:induction false} SetIsPrintable(members: seq<Member>, key: string, value: Json)
    requires Printable(value) && forall m <- members :: Printable(m.value)
    ensures forall m <- SetMember(members, key, value) :: Printable(m.value)
  {
    hide Printable;
    if members != [] {
      assert members[0] in members && forall m <- members[1..] :: m in members;
      if members[0].key != key {
        SetIsPrintable(members[1..], key, value);
      }
    }
  }

  lemma DefaultIsPayload(members: seq<Member>, key: string, value: Json)
    requires IsPayload(members) && Printable(value)
    ensures IsPayload(SetDefault(members, key, value))
  {
    hide Printable, DistinctKeys;
    DefaultKeepsDistinct(members, key, value);
  }

  lemma LookupCons(m: Member, rest: seq<Member>, k: string)
    ensures Lookup([m] + rest, k) == if m.key == k then Some(m.value) else Lookup(rest, k)
  {
    assert ([m] + rest)[1..] == rest;
  }

  /** The envelope sets these five keys, to these values, and no other. */
  lemma EnvelopeLookup(eventId: string, sequence: nat, eventType: string, occurredAt: string, version: int, k: string)
    ensures Lookup(EnvelopeMembers(eventId, sequence, eventType, occurredAt, version), k) ==
              match k
              case "type" => Some(Str(eventType))
              case "occurred_at" => Some(Str(occurredAt))
              case "event_id" => Some(Str(eventId))
              case "sequence" => Some(Int(sequence))
              case "schema_version" => Some(Int(version))
              case _ => None
  {
    var all := EnvelopeMembers(eventId, sequence, eventType, occurredAt, version);
    var e := [all[4]];
    var d, c, b, a := [all[3]] + e, [all[2]] + ([all[3]] + e), [all[1]] + ([all[2]] + ([all[3]] + e)), all;
    assert a == [all[0]] + b && e == [all[4]] + [];
    hide Lookup;
    LookupCons(all[0], b, k);
    LookupCons(all[1], c, k);
    LookupCons(all[2], d, k);
    LookupCons(all[3], e, k);
    LookupCons(all[4], [], k);
    NoMember(k);
  }

  lemma NoMember(k: string)
    ensures Lookup([], k) == None
  {
  }

  function EventOf(r: Request, sequence: nat): seq<Member> {
    EventMembers(r.payload, r.eventId, sequence, r.eventType, r.aggregateId, r.occurredAt, EVENT_SCHEMA_VERSION)
  }

  function Enveloped(r: Request, sequence: nat): seq<Member> {
    Update(r.payload, EnvelopeMembers(r.eventId, sequence, r.eventType, r.occurredAt, EVENT_SCHEMA_VERSION))
  }

  lemma EnvelopeIsDistinct(r: Request, sequence: nat)
    ensures DistinctKeys(EnvelopeMembers(r.eventId, sequence, r.eventType, r.occurredAt, EVENT_SCHEMA_VERSION))
  {
    var fields := EnvelopeMembers(r.eventId, sequence, r.eventType, r.occurredAt, EVENT_SCHEMA_VERSION);
    assert fields[0].key[0] == 's' && fields[0].key[1] == 'c' && fields[1].key[0] == 'e';
    assert fields[2].key[0] == 's' && fields[2].key[1] == 'e' && fields[3].key[0] == 't' && fields[4].key[0] == 'o';
  }

  lemma EventIsPayload(r: Request, sequence: nat)
    requires IsPayload(r.payload)
    ensures IsPayload(EventOf(r, sequence))
  {
    hide IsPayload, Update, EnvelopeMembers, SetDefault;
    var e := Enveloped(r, sequence);
    EnvelopeIsPrintable(r, sequence);
    UpdateIsPayload(r.payload, EnvelopeMembers(r.eventId, sequence, r.eventType, r.occurredAt, EVENT_SCHEMA_VERSION));
    var e1 := SetDefault(e, "reference", Str(r.aggregateId));
    DefaultIsPayload(e, "reference", Str(r.aggregateId));
    var e2 := SetDefault(e1, "actor", Null);
    DefaultIsPayload(e1, "actor", Null);
    DefaultIsPayload(e2, "items", Arr([]));
  }

  lemma EnvelopeIsPrintable(r: Request, sequence: nat)
    ensures forall m <- EnvelopeMembers(r.eventId, sequence, r.eventType, r.occurredAt, EVENT_SCHEMA_VERSION) ::
              Printable(m.value)
  {
  }

  /** The members of the event, before they are printed, by key. */
  lemma EventLookup(r: Request, sequence: nat, k: string)
    ensures Lookup(EventOf(r, sequence), k) ==
              match k
              case "type" => Some(Str(r.eventType))
              case "occurred_at" => Some(Str(r.occurredAt))
              case "event_id" => Some(Str(r.eventId))
              case "sequence" => Some(Int(sequence))
              case "schema_version" => Some(Int(1))
              case "reference" =>
                if Lookup(r.payload, k).Some? then Lookup(r.payload, k) else Some(Str(r.aggregateId))
              case "actor" => if Lookup(r.payload, k).Some? then Lookup(r.payload, k) else Some(Null)
              case "items" => if Lookup(r.payload, k).Some? then Lookup(r.payload, k) else Some(Arr([]))
              case _ => Lookup(r.payload, k)
  {
    hide IsPayload, Update, EnvelopeMembers, SetDefault, Lookup, DistinctKeys;
    var fields := EnvelopeMembers(r.eventId, sequence, r.eventType, r.occurredAt, EVENT_SCHEMA_VERSION);
    var e := Enveloped(r, sequence);
    EnvelopeIsDistinct(r, sequence);
    LookupUpdate(r.payload, fields, k);
    EnvelopeLookup(r.eventId, sequence, r.eventType, r.occurredAt, EVENT_SCHEMA_VERSION, k);
    DefaultsLookup(e, r.aggregateId, k);
    assert EventOf(r, sequence) == WithDefaults(e, r.aggregateId);
  }

  lemma DefaultsLookup(event: seq<Member>, aggregateId: string, k: string)
    ensures Lookup(WithDefaults(event, aggregateId), k) ==
              if Lookup(event, k).Some? then Lookup(event, k)
              else
                match k
                case "reference" => Some(Str(aggregateId))
                case "actor" => Some(Null)
                case "items" => Some(Arr([]))
                case _ => None
  {
    hide SetDefault, Lookup;
    var e1 := SetDefault(event, "reference", Str(aggregateId));
    var e2 := SetDefault(e1, "actor", Null);
    forall key: string
      ensures Lookup(e1, key) ==
                if key == "reference" && Lookup(event, key).None? then Some(Str(aggregateId)) else Lookup(event, key)
      ensures Lookup(e2, key) == if key == "actor" && Lookup(e1, key).None? then Some(Null) else Lookup(e1, key)
    {
      LookupDefault(event, "reference", Str(aggregateId), key);
      LookupDefault(e1, "actor", Null, key);
    }
    LookupDefault(e2, "items", Arr([]), k);
  }

  /** What is read from a frozen body: the event's members, each value canonical, in order of their keys. */
  lemma FrozenIsRead(r: Request, sequence: nat)
    requires IsPayload(r.payload)
    ensures ReadEvent(Frozen(r, sequence).body) == Some(SortMembers(CanonicalMembers(EventOf(r, sequence))))
  {
    hide IsPayload, EventMembers, Read, Print;
    var event := Obj(EventOf(r, sequence));
    EventIsPayload(r, sequence);
    RequestIsRead(event);
  }

  lemma RequestIsRead(event: Json)
    requires event.Obj? && IsPayload(event.members)
    ensures ReadEvent(Print(Obj([Member("events", Arr([event]))])))
         == Some(SortMembers(CanonicalMembers(event.members)))
  {
    hide Read, Print, SortMembers, CanonicalMembers;
    var request := Obj([Member("events", Arr([event]))]);
    RequestIsCanonical(event);
    PrintReadBack(request);
  }

  lemma RequestIsCanonical(event: Json)
    requires event.Obj? && IsPayload(event.members)
    ensures var request := Obj([Member("events", Arr([event]))]);
            Printable(request) && Canonical(request) == Obj([Member("events", Arr([Canonical(event)]))])
  {
    hide DistinctKeys;
    assert Printable(event) && Printable(Arr([event]));
    var inner := [Member("events", Arr([event]))];
    assert CanonicalAll([event]) == [Canonical(event)];
    assert CanonicalMembers(inner) == [Member("events", Arr([Canonical(event)]))];
    assert SortMembers(CanonicalMembers(inner)) == CanonicalMembers(inner);
  }

  lemma DistinctWhenCanonical(members: seq<Member>)
    requires IsPayload(members)
    ensures DistinctKeys(CanonicalMembers(members))
  {
    hide CanonicalMembers, Printable;
    CanonicalStaysDistinct(members);
  }

  lemma ReadLookup(r: Request, sequence: nat, k: string)
    requires IsPayload(r.payload)
    ensures Lookup(SortMembers(CanonicalMembers(EventOf(r, sequence))), k) ==
              match Lookup(EventOf(r, sequence), k) { case None => None case Some(v) => Some(Canonical(v)) }
  {
    hide *;
    var members := EventOf(r, sequence);
    EventIsPayload(r, sequence);
    DistinctWhenCanonical(members);
    LookupSorted(CanonicalMembers(members), k);
    LookupCanonical(members, k);
  }

  /**
   Whatever a caller's payload holds, Master reads in the frozen body an event with the request's type, time and
   id, the row's sequence and the schema version; with a reference, an actor and items by default; with all else as
   the payload has it; and its keys are in order.
   */
  lemma FrozenBodyReads(r: Request, sequence: nat)
    requires IsPayload(r.payload)
    ensures var event := ReadEvent(Frozen(r, sequence).body);
            event.Some? && Carries(event.value, r, sequence) && Ascending(event.value)
  {
    hide IsPayload, EventOf, Lookup, ReadEvent, Frozen, Before, Ascending, SortMembers, CanonicalMembers;
    FrozenIsRead(r, sequence);
    var members := EventOf(r, sequence);
    EventIsPayload(r, sequence);
    DistinctWhenCanonical(members);
    SortedAscends(CanonicalMembers(members));
    forall k: string
      ensures Lookup(SortMembers(CanonicalMembers(members)), k) ==
                match Lookup(members, k) { case None => None case Some(v) => Some(Canonical(v)) }
    {
      ReadLookup(r, sequence, k);
    }
    EventLookup(r, sequence, "type");
    EventLookup(r, sequence, "occurred_at");
    EventLookup(r, sequence, "event_id");
    EventLookup(r, sequence, "sequence");
    EventLookup(r, sequence, "schema_version");
    forall k | k !in {"type", "occurred_at", "event_id", "sequence", "schema_version"}
      ensures Lookup(SortMembers(CanonicalMembers(members)), k) == Given(r, k)
    {
      EventLookup(r, sequence, k);
    }
  }

  // ----- The bodies of every run -----

  /** A row whose body tells Master the row's own id, sequence and version. */
  ghost predicate ReadsOwn(e: Event) {
    var event := ReadEvent(e.body);
    event.Some?
    && Lookup(event.value, "event_id") == Some(Str(e.eventId))
    && Lookup(event.value, "sequence") == Some(Int(e.sequence))
    && Lookup(event.value, "schema_version") == Some(Int(1))
  }

  ghost predicate AllReadOwn(events: seq<Event>) {
    forall e <- events :: ReadsOwn(e)
  }

  ghost predicate PrintableRows(serials: seq<SerialRow>) {
    forall row <- serials :: Printable(row.item)
  }

  /** What callers hand over are dictionaries of values that can be printed. */
  ghost predicate HandsPayloads(s: Step) {
    match s
    case Connecting(_, serials, actor, _, _) => PrintableRows(serials) && Printable(actor)
    case Initializing(serials, actor, _, _) => PrintableRows(serials) && Printable(actor)
    case SubmittingBatch(_, r) => IsPayload(r.payload)
    case Enqueueing(r) => IsPayload(r.payload)
    case _ => true
  }

  lemma FrozenReadsOwn(r: Request, sequence: nat)
    requires IsPayload(r.payload)
    ensures ReadsOwn(Frozen(r, sequence))
  {
    hide IsPayload, ReadEvent, Lookup, Ascending, FrozenEventJson;
    FrozenBodyReads(r, sequence);
  }

  lemma InsertReadsOwn(events: seq<Event>, r: Request)
    requires AllReadOwn(events) && IsPayload(r.payload) && Insert(events, r).Some?
    ensures AllReadOwn(Insert(events, r).value)
  {
    hide IsPayload, ReadsOwn, Insert, Frozen;
    InsertIsSnoc(events, r);
    FrozenReadsOwn(r, |events| + 1);
  }

  /** A row that keeps what was frozen still reads so. */
  lemma SameReadsOwn(events: seq<Event>, after: seq<Event>)
    requires AllReadOwn(events) && |after| == |events|
    requires forall i :: 0 <= i < |events| ==> SameFrozen(events[i], after[i])
    ensures AllReadOwn(after)
  {
    hide ReadsOwn;
    forall i | 0 <= i < |events|
      ensures ReadsOwn(after[i])
    {
      assert events[i] in events;
      SameRowReadsOwn(events[i], after[i]);
    }
  }

  lemma SameRowReadsOwn(e: Event, f: Event)
    requires ReadsOwn(e) && SameFrozen(e, f)
    ensures ReadsOwn(f)
  {
    hide ReadEvent, Lookup;
  }

  /** A reference, an actor, a reason and items. */
  function UsualPayload(reference: string, actor: Json, reason: string, items: seq<Json>): seq<Member> {
    [Member("reference", Str(reference)), Member("actor", actor), Member("reason_code", Str(reason)),
     Member("items", Arr(items))]
  }

  lemma UsualIsPayload(reference: string, actor: Json, reason: string, items: seq<Json>)
    requires Printable(actor) && forall x <- items :: Printable(x)
    ensures IsPayload(UsualPayload(reference, actor, reason, items))
  {
    hide DistinctKeys;
    UsualIsDistinct(reference, actor, reason, items);
  }

  lemma UsualIsDistinct(reference: string, actor: Json, reason: string, items: seq<Json>)
    ensures DistinctKeys(UsualPayload(reference, actor, reason, items))
  {
    assert "reference"[2] == 'f' && "actor"[0] == 'a' && "reason_code"[2] == 'a' && "items"[0] == 'i';
  }

  lemma {:induction false} BaselineItemsPrintable(serials: seq<SerialRow>)
    requires PrintableRows(serials)
    ensures forall x <- BaselineItems(serials) :: Printable(x)
  {
    hide Printable, InBaseline;
    if serials != [] {
      assert serials[0] in serials && forall row <- serials[1..] :: row in serials;
      BaselineItemsPrintable(serials[1..]);
    }
  }

  lemma InitialReadsOwn(lite: Lite, serials: seq<SerialRow>, actor: Json, occurredAt: string, ids: seq<string>)
    requires |ids| > |serials| && EnqueueInitial(lite, serials, actor, occurredAt, ids).Some?
    requires PrintableRows(serials) && Printable(actor)
    ensures AllReadOwn(EnqueueInitial(lite, serials, actor, occurredAt, ids).value.events)
  {
    hide EnqueueInitial, Printable, ReadsOwn, IsPacking, Frozen, PartRequest, EmptyRequest, ConfiguredCode, IsPayload;
    BaselineListsStock(lite, serials, actor, occurredAt, ids);
    BaselineItemsPrintable(serials);
    var b := Baseline(ConfiguredCode(lite.code).value, actor, occurredAt);
    var events := EnqueueInitial(lite, serials, actor, occurredAt, ids).value.events;
    if BaselineItems(serials) == [] {
      MarkerReadsOwn(b, ids[0]);
    } else {
      var parts: seq<Part> :| ListsParts(events, b, parts, ids) && IsPacking(b, BaselineItems(serials), parts);
      forall i | 0 <= i < |parts|
        ensures ReadsOwn(events[i])
      {
        PartReadsOwn(b, BaselineItems(serials), parts, i, ids[i]);
      }
    }
  }

  lemma MarkerReadsOwn(b: Baseline, id: string)
    requires Printable(b.actor)
    ensures ReadsOwn(Frozen(EmptyRequest(b, id), 1))
  {
    hide IsPayload, ReadsOwn, Frozen, Printable;
    UsualIsPayload(ReferencePrefix(b.code) + "EMPTY", b.actor, "INITIAL_ENROLLMENT", []);
    FrozenReadsOwn(EmptyRequest(b, id), 1);
  }

  lemma PartReadsOwn(b: Baseline, items: seq<Json>, parts: seq<Part>, i: nat, id: string)
    requires IsPacking(b, items, parts) && i < |parts| && Printable(b.actor) && forall x <- items :: Printable(x)
    ensures ReadsOwn(Frozen(PartRequest(b, i + 1, parts[i], id), i + 1))
  {
    hide IsPayload, ReadsOwn, Frozen, Printable, Fits;
    PartIsSlice(parts, i);
    assert forall x <- parts[i] :: x in items;
    UsualIsPayload(Reference(b.code, i + 1), b.actor, "INITIAL_ENROLLMENT", parts[i]);
    FrozenReadsOwn(PartRequest(b, i + 1, parts[i], id), i + 1);
  }

  lemma StepReadsOwn(w: World, s: Step)
    requires Valid(w) && AllReadOwn(w.lite.events) && HandsPayloads(s)
    ensures AllReadOwn(Apply(w, s).lite.events)
  {
    hide Valid, Insert, PushAll, RetryFailed, EnqueueInitial, Initialized, IdentityAccepted, CursorAccepted, ReadsOwn,
         IsPayload, PrintableRows, Printable;
    match s
    case Connecting(code, serials, actor, occurredAt, ids) =>
      if |ids| > |serials| && EnqueueInitial(w.lite.(code := code), serials, actor, occurredAt, ids).Some? {
        InitialReadsOwn(w.lite.(code := code), serials, actor, occurredAt, ids);
      }
    case Initializing(serials, actor, occurredAt, ids) =>
      if |ids| > |serials| && EnqueueInitial(w.lite, serials, actor, occurredAt, ids).Some? {
        InitialReadsOwn(w.lite, serials, actor, occurredAt, ids);
      }
    case SavingSettings(code) =>
    case CreatingBatch(b) =>
    case SubmittingBatch(b, r) =>
      var request := r.(aggregate := BatchAggregate, batchId := Some(b));
      if Insert(w.lite.events, request).Some? { InsertReadsOwn(w.lite.events, request); }
    case Enqueueing(r) =>
      if Insert(w.lite.events, r).Some? { InsertReadsOwn(w.lite.events, r); }
    case Pushing(turns) =>
      PushAllKeepsValid(w, turns);
      SameReadsOwn(w.lite.events, PushAll(w, turns).lite.events);
    case Retrying(i) =>
      if RetryFailed(w.lite, i).Some? {
        RetryKeepsValid(w, i);
        SameReadsOwn(w.lite.events, Apply(w, s).lite.events);
      }
  }

  /** In every run, each queued body, and so each entry of Master's log, names its own row. */
  lemma {:induction false} RunReadsOwn(w: World, steps: seq<Step>)
    requires Start(w) && forall s <- steps :: HandsPayloads(s)
    ensures AllReadOwn(Run(w, steps).lite.events)
    ensures var w' := Run(w, steps); forall entry <- w'.master.log :: LoggedAsRead(entry)
    decreases |steps|
  {
    hide Valid, Apply, ReadsOwn, HandsPayloads, LoggedAsRead;
    if steps == [] {
    } else {
      var init, last := steps[..|steps| - 1], steps[|steps| - 1];
      assert forall s <- init :: s in steps;
      RunKeepsValid(w, init);
      RunReadsOwn(w, init);
      StepReadsOwn(Run(w, init), last);
      RunKeepsValid(w, steps);
      LogReadsOwn(Run(w, steps));
    }
  }

  /** What Master has logged under an id and a sequence reads as an event with that id and sequence. */
  ghost predicate LoggedAsRead(entry: Entry) {
    var event := ReadEvent(entry.body);
    event.Some?
    && Lookup(event.value, "event_id") == Some(Str(entry.eventId))
    && Lookup(event.value, "sequence") == Some(Int(entry.sequence))
  }

  lemma LogReadsOwn(w: World)
    requires Valid(w) && AllReadOwn(w.lite.events)
    ensures forall entry <- w.master.log :: LoggedAsRead(entry)
  {
    hide Numbered, Shaped, Tracked, Enrolled, Head, ReadEvent, Lookup;
    forall i | 0 <= i < |w.master.log|
      ensures LoggedAsRead(w.master.log[i])
    {
      assert w.lite.events[i] in w.lite.events;
    }
  }
}
