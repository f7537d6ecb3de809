/**
 What the queued events tell Master, key by key: the parts of the initial inventory and its empty marker, submitted
 batches, relocation chunks and replaced labels (app/services/master_sync.py:324-391 and 489-600,
 app/services/relocation.py:357-398, app/services/qr_replacements.py).
 */
module EventContents {
  import opened Options
  import opened CanonicalJson
  import opened CanonicalOrder
  import opened JsonReader
  import opened EventEnvelope
  import opened BaselinePacking
  import opened Sequences
  import opened Outbox
  import opened StockTypes
  import D = DraftBatches
  import F = FrozenBodies
  import R = Relocation
  import BatchEvents
  import RelocationEvents
  import RelocationTerms
  import QrCommands

  /** The type, time, reference, actor, reason and items that are read from a body. */
  ghost predicate Tells(body: string, eventType: string, occurredAt: string, reference: string, actor: Json,
                        reason: Json, items: seq<Json>) {
    var event := F.ReadEvent(body);
    event.Some?
    && F.Lookup(event.value, "type") == Some(Str(eventType))
    && F.Lookup(event.value, "occurred_at") == Some(Str(occurredAt))
    && F.Lookup(event.value, "reference") == Some(Str(reference))
    && F.Lookup(event.value, "actor") == Some(Canonical(actor))
    && F.Lookup(event.value, "reason_code") == Some(reason)
    && F.Lookup(event.value, "items") == Some(Arr(CanonicalAll(items)))
  }

  /** What such a payload holds under its four keys. */
  ghost predicate Holds(payload: seq<Member>, reference: string, actor: Json, reason: Json, items: seq<Json>) {
    F.Lookup(payload, "reference") == Some(Str(reference))
    && F.Lookup(payload, "actor") == Some(actor)
    && F.Lookup(payload, "reason_code") == Some(reason)
    && F.Lookup(payload, "items") == Some(Arr(items))
  }

  lemma HeldIsTold(r: Request, sequence: nat, reference: string, actor: Json, reason: Json, items: seq<Json>)
    requires F.IsPayload(r.payload) && Holds(r.payload, reference, actor, reason, items) && Canonical(reason) == reason
    ensures Tells(Frozen(r, sequence).body, r.eventType, r.occurredAt, reference, actor, reason, items)
  {
    hide Frozen, F.ReadEvent, F.Lookup, F.IsPayload, F.Ascending;
    F.FrozenBodyReads(r, sequence);
    var event := F.ReadEvent(Frozen(r, sequence).body).value;
    forall k | k in {"reference", "actor", "reason_code", "items"}
      ensures F.Lookup(event, k) == F.Given(r, k)
    {
    }
  }

  lemma FourHeld(reference: string, actor: Json, reason: string, items: seq<Json>)
    requires Printable(actor) && forall x <- items :: Printable(x)
    ensures var payload := F.UsualPayload(reference, actor, reason, items);
            F.IsPayload(payload) && Holds(payload, reference, actor, Str(reason), items)
  {
    hide Printable, F.Lookup, F.IsPayload;
    var payload := F.UsualPayload(reference, actor, reason, items);
    F.UsualIsPayload(reference, actor, reason, items);
    forall m <- payload
      ensures F.Lookup(payload, m.key) == Some(m.value)
    {
      F.LookupMember(payload, m);
    }
    assert payload[0] in payload && payload[1] in payload && payload[2] in payload && payload[3] in payload;
  }

  // ----- The initial inventory -----

  lemma PartTells(b: Baseline, part: nat, items: seq<Json>, eventId: string, sequence: nat)
    requires Printable(b.actor) && forall x <- items :: Printable(x)
    ensures Tells(Frozen(PartRequest(b, part, items, eventId), sequence).body, "STOCK_SNAPSHOT", b.occurredAt,
              b.code + ":INITIAL-INVENTORY:PART-" + Decimal(part), b.actor, Str("INITIAL_ENROLLMENT"), items)
  {
    hide Tells, Holds, F.IsPayload, Printable;
    var reference := b.code + ":INITIAL-INVENTORY:PART-" + Decimal(part);
    assert Reference(b.code, part) == reference;
    FourHeld(reference, b.actor, "INITIAL_ENROLLMENT", items);
    HeldIsTold(PartRequest(b, part, items, eventId), sequence, reference, b.actor, Str("INITIAL_ENROLLMENT"), items);
  }

  lemma MarkerTells(b: Baseline, eventId: string, sequence: nat)
    requires Printable(b.actor)
    ensures Tells(Frozen(EmptyRequest(b, eventId), sequence).body, "HEARTBEAT", b.occurredAt,
              b.code + ":INITIAL-INVENTORY:EMPTY", b.actor, Str("INITIAL_ENROLLMENT"), [])
  {
    hide Tells, Holds, F.IsPayload, Printable;
    var reference := b.code + ":INITIAL-INVENTORY:EMPTY";
    assert ReferencePrefix(b.code) + "EMPTY" == reference;
    FourHeld(reference, b.actor, "INITIAL_ENROLLMENT", []);
    HeldIsTold(EmptyRequest(b, eventId), sequence, reference, b.actor, Str("INITIAL_ENROLLMENT"), []);
  }

  // ----- Relocations and replaced labels -----

  lemma ChunkTells(s: RelocationEvents.Sender, part: nat, chunk: seq<Json>, eventId: string, sequence: nat)
    requires Printable(s.actor) && forall x <- chunk :: Printable(x)
    ensures Tells(Frozen(RelocationEvents.ChunkRequest(s, part, chunk, eventId), sequence).body, "STOCK_SNAPSHOT",
              s.occurredAt, s.reference + ":PART-" + Decimal(part), s.actor, Str("RELOCATION"), chunk)
  {
    hide Tells, Holds, F.IsPayload, Printable;
    var reference := s.reference + ":PART-" + Decimal(part);
    FourHeld(reference, s.actor, "RELOCATION", chunk);
    HeldIsTold(RelocationEvents.ChunkRequest(s, part, chunk, eventId), sequence, reference, s.actor, Str("RELOCATION"),
      chunk);
  }

  lemma NullIsPrintable()
    ensures Printable(Null)
  {
  }

  lemma ReplacementTells(env: QrCommands.Surroundings, id: string, retired: Serial, successor: Serial, sequence: nat)
    requires Printable(env.snapshot(retired)) && Printable(env.snapshot(successor))
    ensures Tells(Frozen(QrCommands.ReplacementEvent(env, id, retired, successor), sequence).body, "STOCK_SNAPSHOT",
              env.stamp(id), id, Null, Str("QR_REPLACEMENT"), [env.snapshot(retired), env.snapshot(successor)])
  {
    hide Tells, Holds, F.IsPayload, Printable;
    var items := [env.snapshot(retired), env.snapshot(successor)];
    NullIsPrintable();
    FourHeld(id, Null, "QR_REPLACEMENT", items);
    HeldIsTold(QrCommands.ReplacementEvent(env, id, retired, successor), sequence, id, Null, Str("QR_REPLACEMENT"),
      items);
  }

  // ----- Submitted batches -----

  /** `batch_type` as Master knows it; an assignment of labels is reported as the stock it results in. */
  const WIRE_TYPES: map<BatchType, string> := map[
    Purchase := "PURCHASE", Receive := "RECEIVE", Sale := "SALE", Audit := "AUDIT",
    PurchaseReturn := "PURCHASE_RETURN", SalesReturn := "SALES_RETURN", Issue := "ISSUE",
    QrAssignment := "STOCK_SNAPSHOT"]

  /** The party and tax fields are told as they are. */
  ghost predicate TellsParty(body: string, party: seq<Member>) {
    var event := F.ReadEvent(body);
    event.Some?
    && forall m <- party | m.key !in {"type", "occurred_at", "event_id", "sequence", "schema_version"} ::
         F.Lookup(event.value, m.key) == Some(Canonical(m.value))
  }

  /** A batch without a reason says null. */
  function ReasonOf(batch: Batch): Json {
    if batch.reason == "" then Null else Str(batch.reason)
  }

  lemma BatchTells(code: string, b: nat, batch: Batch, header: BatchEvents.BatchHeader, items: seq<Json>, sequence: nat)
    requires F.IsPayload(BatchEvents.BatchRequest(code, b, batch, header, items).payload)
    ensures var r := BatchEvents.BatchRequest(code, b, batch, header, items);
            batch.kind in WIRE_TYPES && r.aggregateId == code + ":" + header.number && r.batchId == Some(b)
            && TellsParty(Frozen(r, sequence).body, header.party)
            && Tells(Frozen(r, sequence).body, WIRE_TYPES[batch.kind], header.occurredAt, header.reference,
                 header.actor, ReasonOf(batch), items)
  {
    hide Tells, F.IsPayload, F.Lookup, Frozen, TellsParty;
    var r := BatchEvents.BatchRequest(code, b, batch, header, items);
    WireTypeIs(batch.kind);
    BatchHolds(code, b, batch, header, items);
    HeldIsTold(r, sequence, header.reference, header.actor, ReasonOf(batch), items);
    PartyIsTold(code, b, batch, header, items, sequence);
  }

  lemma WireTypeIs(kind: BatchType)
    ensures kind in WIRE_TYPES && BatchEvents.EventTypeOf(kind) == WIRE_TYPES[kind]
  {
    assert Purchase in WIRE_TYPES && Receive in WIRE_TYPES && Sale in WIRE_TYPES && Audit in WIRE_TYPES;
    assert PurchaseReturn in WIRE_TYPES && SalesReturn in WIRE_TYPES && Issue in WIRE_TYPES;
    assert QrAssignment in WIRE_TYPES;
  }

  lemma BatchHolds(code: string, b: nat, batch: Batch, header: BatchEvents.BatchHeader, items: seq<Json>)
    requires F.IsPayload(BatchEvents.BatchRequest(code, b, batch, header, items).payload)
    ensures var payload := BatchEvents.BatchRequest(code, b, batch, header, items).payload;
            Holds(payload, header.reference, header.actor, ReasonOf(batch), items)
            && forall m <- header.party :: F.Lookup(payload, m.key) == Some(m.value)
  {
    hide F.Lookup, Printable;
    var payload := BatchEvents.BatchRequest(code, b, batch, header, items).payload;
    forall m <- payload
      ensures F.Lookup(payload, m.key) == Some(m.value)
    {
      F.LookupMember(payload, m);
    }
    assert payload[0] in payload && payload[1] in payload && payload[2] in payload && payload[|payload| - 1] in payload;
  }

  lemma PartyIsTold(code: string, b: nat, batch: Batch, header: BatchEvents.BatchHeader, items: seq<Json>,
                    sequence: nat)
    requires F.IsPayload(BatchEvents.BatchRequest(code, b, batch, header, items).payload)
    ensures TellsParty(Frozen(BatchEvents.BatchRequest(code, b, batch, header, items), sequence).body, header.party)
  {
    hide Holds, F.IsPayload, F.Lookup, Frozen, F.ReadEvent, F.Ascending;
    var r := BatchEvents.BatchRequest(code, b, batch, header, items);
    BatchHolds(code, b, batch, header, items);
    F.FrozenBodyReads(r, sequence);
  }

  /** Party fields under keys of their own, and texts and numbers that can be printed. */
  ghost predicate IsHeader(header: BatchEvents.BatchHeader, snapshot: (nat, Serial) -> Json) {
    F.IsPayload(PlainRequest(header).payload) && forall i, s :: Printable(snapshot(i, s))
  }

  function PlainRequest(header: BatchEvents.BatchHeader): Request {
    BatchEvents.BatchRequest("", 0, Batch(Sale, true, "", [], [], {}), header, [])
  }

  lemma HeaderIsPayload(code: string, b: nat, batch: Batch, header: BatchEvents.BatchHeader, items: seq<Json>)
    requires F.IsPayload(PlainRequest(header).payload) && forall x <- items :: Printable(x)
    ensures F.IsPayload(BatchEvents.BatchRequest(code, b, batch, header, items).payload)
  {
    hide Printable, DistinctKeys, BatchEvents.EventTypeOf;
    var plain := PlainRequest(header).payload;
    var payload := BatchEvents.BatchRequest(code, b, batch, header, items).payload;
    assert |payload| == |plain|;
    PartsPrint(items, batch, header);
    forall k | 0 <= k < |payload|
      ensures payload[k].key == plain[k].key && Printable(payload[k].value)
    {
      assert plain[k] in plain;
    }
    SameKeysDistinct(plain, payload);
  }

  lemma PartsPrint(items: seq<Json>, batch: Batch, header: BatchEvents.BatchHeader)
    requires forall x <- items :: Printable(x)
    ensures Printable(Arr(items)) && Printable(ReasonOf(batch)) && Printable(Str(header.reference))
  {
  }

  lemma SameKeysDistinct(a: seq<Member>, b: seq<Member>)
    requires DistinctKeys(a) && |b| == |a| && forall k :: 0 <= k < |a| ==> b[k].key == a[k].key
    ensures DistinctKeys(b)
  {
  }

  /** One snapshot for each unit, in scan order, of its row as it is in `serials`. */
  ghost predicate AreSnapshots(items: seq<Json>, snapshot: (nat, Serial) -> Json, serials: Serials, ids: seq<nat>) {
    |items| == |ids|
    && forall k :: 0 <= k < |ids| ==> ids[k] in serials && items[k] == snapshot(ids[k], serials[ids[k]])
  }

  lemma SnapshotsAre(snapshot: (nat, Serial) -> Json, serials: Serials, ids: seq<nat>)
    requires forall i <- ids :: i in serials
    ensures AreSnapshots(BatchEvents.ItemSnapshots(snapshot, serials, ids), snapshot, serials, ids)
  {
  }

  lemma SnapshotsPrint(items: seq<Json>, snapshot: (nat, Serial) -> Json, serials: Serials, ids: seq<nat>)
    requires AreSnapshots(items, snapshot, serials, ids) && forall i, s :: Printable(snapshot(i, s))
    ensures forall x <- items :: Printable(x)
  {
  }

  /** What a committed submission queues: one event, that tells its units as the submission leaves them. */
  lemma SubmissionTells(st: Stock, lite: Lite, b: nat, checks: bool, header: BatchEvents.BatchHeader,
                        snapshot: (nat, Serial) -> Json) returns (items: seq<Json>)
    requires b in st.batches && D.Distinct(st.batches[b].items) && IsHeader(header, snapshot)
    requires BatchEvents.SubmitAndReport(st, lite, b, checks, header, snapshot).Some?
    ensures var (stock, queued) := BatchEvents.SubmitAndReport(st, lite, b, checks, header, snapshot).value;
            var batch, n := st.batches[b], |lite.events|;
            AreSnapshots(items, snapshot, stock.serials, batch.items)
            && |queued.events| == n + 1 && queued.events[..n] == lite.events
            && batch.kind in WIRE_TYPES
            && Tells(queued.events[n].body, WIRE_TYPES[batch.kind], header.occurredAt, header.reference, header.actor,
                 ReasonOf(batch), items)
            && TellsParty(queued.events[n].body, header.party)
  {
    hide Tells, TellsParty, Frozen, F.IsPayload, D.Submit, BatchEvents.SubmitAndReport, ConfiguredCode, PlainRequest,
         BatchEvents.ItemSnapshots, BatchEvents.BatchRequest, AreSnapshots, D.Distinct, D.Shifted, Printable;
    var batch := st.batches[b];
    var (stock, queued) := BatchEvents.SubmitAndReport(st, lite, b, checks, header, snapshot).value;
    BatchEvents.SubmissionIsReported(st, lite, b, checks, header, snapshot);
    SubmittedRows(st, b, checks);
    items := BatchEvents.ItemSnapshots(snapshot, stock.serials, batch.items);
    SnapshotsAre(snapshot, stock.serials, batch.items);
    SnapshotsPrint(items, snapshot, stock.serials, batch.items);
    HeaderIsPayload(ConfiguredCode(lite.code).value, b, batch, header, items);
    BatchTells(ConfiguredCode(lite.code).value, b, batch, header, items, |lite.events| + 1);
  }

  lemma SubmittedRows(st: Stock, b: nat, checks: bool)
    requires b in st.batches && D.Distinct(st.batches[b].items) && D.Submit(st, b, checks).Some?
    ensures var batch, after := st.batches[b], D.Submit(st, b, checks).value;
            after.serials == D.Shifted(st.serials, batch, batch.items) && forall i <- batch.items :: i in after.serials
  {
    hide D.Complete, D.Distinct, D.Admissible;
    BatchEvents.SubmittedWasOpen(st, b, checks);
    D.SubmitExactly(st, b, checks);
  }

  /** What a committed relocation queues: its units as the move leaves them, in order, in events of up to 5000. */
  lemma RelocationTells(st: Stock, lite: Lite, locations: map<nat, Location>, destination: nat, items: seq<R.MoveItem>,
                        s: RelocationEvents.Sender, snapshot: Serial -> Json, ids: nat -> string)
      returns (chunks: seq<seq<Json>>)
    requires RelocationEvents.RelocateAndReport(st, lite, locations, destination, items, s, snapshot, ids).Some?
    requires Printable(s.actor) && forall unit :: Printable(snapshot(unit))
    ensures R.Relocate(st, locations, destination, items).Some?
    ensures var (stock, queued) :=
              RelocationEvents.RelocateAndReport(st, lite, locations, destination, items, s, snapshot, ids).value;
            var moved, n := R.Relocate(st, locations, destination, items).value.moved, |lite.events|;
            UnitsInOrder(Flatten(chunks), snapshot, stock.serials, moved)
            && |queued.events| == n + |chunks| && queued.events[..n] == lite.events
            && forall k :: 0 <= k < |chunks| ==>
                 1 <= |chunks[k]| <= 5000
                 && Tells(queued.events[n + k].body, "STOCK_SNAPSHOT", s.occurredAt,
                      s.reference + ":PART-" + Decimal(k + 1), s.actor, Str("RELOCATION"), chunks[k])
  {
    hide Tells, Frozen, R.Relocate, RelocationEvents.Chunks, RelocationEvents.EnqueueChunks, Printable,
         RelocationEvents.ChunkRequest, RelocationEvents.Snapshots, UnitsInOrder;
    RelocationEvents.RelocationIsReported(st, lite, locations, destination, items, s, snapshot, ids);
    var m := R.Relocate(st, locations, destination, items).value;
    chunks := RelocationEvents.Chunks(RelocationEvents.Snapshots(snapshot, m));
    MovedArePresent(st, locations, destination, items);
    UnitsAre(snapshot, m);
    forall k | 0 <= k < |chunks|
      ensures 1 <= |chunks[k]| <= 5000
      ensures Tells(Frozen(RelocationEvents.ChunkRequest(s, k + 1, chunks[k], ids(k + 1)), |lite.events| + k + 1).body,
                "STOCK_SNAPSHOT", s.occurredAt, s.reference + ":PART-" + Decimal(k + 1), s.actor, Str("RELOCATION"),
                chunks[k])
    {
      assert chunks[k] in chunks;
      ChunkPrints(Flatten(chunks), chunks, k, snapshot, m.serials, m.moved);
      ChunkTells(s, k + 1, chunks[k], ids(k + 1), |lite.events| + k + 1);
    }
  }

  ghost predicate UnitsInOrder(items: seq<Json>, snapshot: Serial -> Json, serials: Serials, ids: seq<nat>) {
    |items| == |ids| && forall k :: 0 <= k < |ids| ==> ids[k] in serials && items[k] == snapshot(serials[ids[k]])
  }

  lemma UnitsAre(snapshot: Serial -> Json, m: R.Move)
    requires forall i <- m.moved :: i in m.serials
    ensures UnitsInOrder(RelocationEvents.Snapshots(snapshot, m), snapshot, m.serials, m.moved)
  {
  }

  lemma MovedArePresent(st: Stock, locations: map<nat, Location>, destination: nat, items: seq<R.MoveItem>)
    requires R.Relocate(st, locations, destination, items).Some?
    ensures var m := R.Relocate(st, locations, destination, items).value; forall i <- m.moved :: i in m.serials
  {
    hide R.Relocate, RelocationTerms.LineTaken;
    var lists := RelocationTerms.MovesWhatIsAsked(st, locations, destination, items);
  }

  lemma ChunkPrints(all: seq<Json>, chunks: seq<seq<Json>>, k: nat, snapshot: Serial -> Json, serials: Serials,
                    ids: seq<nat>)
    requires all == Flatten(chunks) && k < |chunks| && UnitsInOrder(all, snapshot, serials, ids)
    requires forall unit :: Printable(snapshot(unit))
    ensures forall x <- chunks[k] :: Printable(x)
  {
    hide Flatten, Printable;
    PartIsSlice(chunks, k);
    assert forall x <- chunks[k] :: x in all;
  }

  // ----- When an event is queued -----

  lemma {:induction false} ItemsCounted(payload: seq<Member>)
    ensures ItemCount(payload) == match F.Lookup(payload, "items") { case Some(Arr(items)) => |items| case _ => 0 }
  {
    if payload != [] {
      ItemsCounted(payload[1..]);
    }
  }

  /** An ordinary event is queued exactly on an enrolled node, under a new id, and within Master's limits. */
  lemma EnqueuedExactly(lite: Lite, r: Request)
    ensures Enqueue(lite, r).Some? <==>
              r.aggregate != InitialInventory && Initialized(lite)
              && (forall e <- lite.events :: e.eventId != r.eventId)
              && |lite.events| < 9_223_372_036_854_775_807
              && (match F.Lookup(r.payload, "items") { case Some(Arr(items)) => |items| <= 5000 case _ => true })
              && Size(Frozen(r, |lite.events| + 1).body) <= 5 * 1024 * 1024
    ensures Enqueue(lite, r).Some? ==>
              var queued, n := Enqueue(lite, r).value, |lite.events|;
              queued == lite.(events := queued.events) && |queued.events| == n + 1 && queued.events[..n] == lite.events
              && IsQueuedRow(queued.events[n], r, n + 1)
  {
    hide Initialized, FrozenEventJson, Size, F.Lookup, ItemCount;
    ItemsCounted(r.payload);
  }

  /** A new row: never attempted, due at once, under the request's names, with its body and the digest of it. */
  ghost predicate IsQueuedRow(e: Event, r: Request, sequence: nat) {
    && e.sequence == sequence && e.eventId == r.eventId && e.batchId == r.batchId
    && e.aggregate == r.aggregate && e.aggregateId == r.aggregateId
    && e.status == EventStatus.Pending && e.attempts == 0 && e.nextAttemptAt == None && e.sendingAt == None
    && e.body == Frozen(r, sequence).body && e.digest == Sha256(e.body)
  }
}
