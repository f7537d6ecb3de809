/**
 The durable outbox (app/services/master_sync.py, app/routers/lite_sync.py): what each
 transaction does to the queued events, to the batches they report, and, through the network,
 to Master's log. The functions here say what one step computes; `LiteNode` performs the steps
 on mutable rows, and `OutboxRuns` proves what every run of them keeps.
 */
module Outbox {
  import opened Options
  import opened CanonicalJson
  import opened EventEnvelope
  import opened BaselinePacking
  import opened Sequences
  import opened StockTypes
  import EnvText
  import Text

  // ----- Rows -----

  datatype EventStatus = Pending | Sending | Sent | Failed

  datatype Aggregate = InitialInventory | BatchAggregate | Relocation | QrReplacement | Receipt | Transfer

  datatype Event = Event(
    sequence: nat,
    eventId: string,
    aggregate: Aggregate,
    aggregateId: string,
    batchId: Option<nat>,
    body: string,
    digest: Digest,
    status: EventStatus,
    attempts: nat,
    nextAttemptAt: Option<int>,
    sendingAt: Option<int>)

  datatype BatchStatus = Draft | PendingSync | Syncing | Synced | SyncFailed

  /** The rows of the Lite database that the protocol touches; `code` is the saved setting. */
  datatype Lite = Lite(code: string, events: seq<Event>, batches: map<nat, BatchStatus>)

  // ----- Franchise codes -----

  predicate CodeChar(c: char) {
    'A' <= c <= 'Z' || '0' <= c <= '9' || c == '_' || c == '-'
  }

  predicate IsPlaceholder(code: string) {
    code in {"CHANGE-ME", "CHANGEME", "DEFAULT", "FRANCHISE", "FRANCHISE-CODE", "LITE", "MASTER",
             "SETUORA", "YOUR-FRANCHISE", "YOUR-FRANCHISE-CODE"}
  }

  /** `FRANCHISE_CODE_PATTERN`, and not one of the placeholders. */
  predicate IsCode(code: string) {
    1 <= |code| <= 20 && (forall c <- code :: CodeChar(c)) && code[0] != '_' && code[0] != '-' && !IsPlaceholder(code)
  }

  function TrimDashesLeft(s: string): string {
    if s != "" && s[0] == '-' then TrimDashesLeft(s[1..]) else s
  }

  function TrimDashesRight(s: string): string {
    if s != "" && s[|s| - 1] == '-' then TrimDashesRight(s[..|s| - 1]) else s
  }

  /** Every run of characters that a code cannot hold becomes one dash. */
  function DashOthers(s: string): string {
    if s == "" then ""
    else if CodeChar(s[0]) then [s[0]] + DashOthers(s[1..])
    else if |s| > 1 && !CodeChar(s[1]) then DashOthers(s[1..])
    else ['-'] + DashOthers(s[1..])
  }

  /** `normalize_franchise_code`. */
  function NormalizeCode(raw: string): string {
    TrimDashesRight(TrimDashesLeft(DashOthers(Text.Upper(EnvText.Strip(raw)))))
  }

  /** `configured_franchise_code`: the code in use, which need not be the code as saved. */
  function ConfiguredCode(code: string): Option<string> {
    var c := NormalizeCode(code);
    if c == "" || IsPlaceholder(c) || |c| > 20 then None else Some(c)
  }

  /** SQL `text LIKE prefix || '%'`: case-blind, and `_` in the prefix matches any character. */
  predicate LikePrefix(text: string, prefix: string) {
    |prefix| <= |text| && forall i :: 0 <= i < |prefix| ==>
        prefix[i] == '_' || Text.FoldCase(prefix[i]) == Text.FoldCase(text[i])
  }

  predicate IsMarker(e: Event, code: string) {
    e.aggregate == InitialInventory && LikePrefix(e.aggregateId, ReferencePrefix(code))
  }

  predicate InitialInventoryQueued(events: seq<Event>, code: string) {
    exists e <- events :: IsMarker(e, code)
  }

  /** `require_initial_inventory_queued`. */
  predicate Initialized(lite: Lite) {
    var code := ConfiguredCode(lite.code);
    code.Some? && InitialInventoryQueued(lite.events, code.value)
  }

  // ----- Enqueueing -----

  /** What a caller hands to `enqueue_outbox_event`; `eventId` is the fresh UUID. */
  datatype Request = Request(
    eventType: string,
    aggregate: Aggregate,
    aggregateId: string,
    payload: seq<Member>,
    occurredAt: string,
    batchId: Option<nat>,
    eventId: string)

  function Frozen(r: Request, sequence: nat): Event {
    var body := FrozenEventJson(r.payload, r.eventId, sequence, r.eventType, r.aggregateId, r.occurredAt,
      EVENT_SCHEMA_VERSION);
    Event(sequence, r.eventId, r.aggregate, r.aggregateId, r.batchId, body, Sha256(body), Pending, 0, None, None)
  }

  predicate HasEventId(events: seq<Event>, eventId: string) {
    exists e <- events :: e.eventId == eventId
  }

  /** Insert the row, freeze its body, validate it. A refusal rolls the transaction back. */
  function Insert(events: seq<Event>, r: Request): Option<seq<Event>> {
    var sequence := |events| + 1;
    var e := Frozen(r, sequence);
    if HasEventId(events, r.eventId) || sequence > MAX_SEQUENCE || !Acceptable(e.body, ItemCount(r.payload)) then None
    else Some(events + [e])
  }

  /** `enqueue_outbox_event` for ordinary events. */
  function Enqueue(lite: Lite, r: Request): Option<Lite> {
    if r.aggregate == InitialInventory || !Initialized(lite) then None
    else
      var events :- Insert(lite.events, r);
      Some(lite.(events := events))
  }

  /** A batch leaves the draft state and its event is queued, or neither happens. */
  function SubmitBatch(lite: Lite, batchId: nat, r: Request): Option<Lite> {
    if batchId !in lite.batches || lite.batches[batchId] != Draft then None
    else
      var queued :- Enqueue(lite, r.(aggregate := BatchAggregate, batchId := Some(batchId)));
      Some(queued.(batches := lite.batches[batchId := PendingSync]))
  }

  // ----- The initial inventory -----

  /** A serial row; `item` is its `network_event_item` snapshot. */
  datatype SerialRow = SerialRow(active: bool, status: SerialStatus, item: Json)

  predicate InBaseline(s: SerialRow) {
    s.active && (s.status == Generated || s.status == InStock)
  }

  /** The items of the baseline, in order of serial id. */
  function BaselineItems(serials: seq<SerialRow>): seq<Json> {
    if serials == [] then []
    else
      (if InBaseline(serials[0]) then [serials[0].item] else []) + BaselineItems(serials[1..])
  }

  function PartRequest(b: Baseline, part: nat, items: seq<Json>, eventId: string): Request {
    var reference := Reference(b.code, part);
    Request("STOCK_SNAPSHOT", InitialInventory, reference, InitialPayload(reference, b.actor, items),
      b.occurredAt, None, eventId)
  }

  function EmptyRequest(b: Baseline, eventId: string): Request {
    var reference := ReferencePrefix(b.code) + "EMPTY";
    Request("HEARTBEAT", InitialInventory, reference, InitialPayload(reference, b.actor, []),
      b.occurredAt, None, eventId)
  }

  /** Queue the first `n` parts, one event each. */
  function InsertParts(b: Baseline, parts: seq<Part>, ids: seq<string>, n: nat): Option<seq<Event>>
    requires n <= |parts| && n <= |ids|
  {
    if n == 0 then Some([])
    else
      var before :- InsertParts(b, parts, ids, n - 1);
      Insert(before, PartRequest(b, n, parts[n - 1], ids[n - 1]))
  }

  /**
   The one-time baseline, queued before the first event. `ids` are the fresh UUIDs, one an
   item at least (no more parts than items are ever made).
   */
  function EnqueueInitial(lite: Lite, serials: seq<SerialRow>, actor: Json, occurredAt: string, ids: seq<string>)
    : Option<Lite>
    requires |ids| > |serials|
  {
    if lite.events != [] then None
    else
      var code :- ConfiguredCode(lite.code);
      var b := Baseline(code, actor, occurredAt);
      var items := BaselineItems(serials);
      if items == [] then
        var events :- Insert([], EmptyRequest(b, ids[0]));
        Some(lite.(events := events))
      else
        var parts :- Pack(b, items);
        PartsFewerThanItems(b, items);
        BaselineItemsFewer(serials);
        var events :- InsertParts(b, parts, ids, |parts|);
        Some(lite.(events := events))
  }

  lemma {:induction false} BaselineItemsFewer(serials: seq<SerialRow>)
    ensures |BaselineItems(serials)| <= |serials|
  {
    if serials != [] {
      BaselineItemsFewer(serials[1..]);
    }
  }

  lemma {:induction false} FlattenLength(parts: seq<Part>)
    requires forall p <- parts :: p != []
    ensures |parts| <= |Flatten(parts)|
    decreases |parts|
  {
    if parts != [] {
      var init, last := parts[..|parts| - 1], parts[|parts| - 1];
      assert last in parts && forall p <- init :: p in parts;
      FlattenLength(init);
    }
  }

  lemma PartsFewerThanItems(b: Baseline, items: seq<Json>)
    requires Pack(b, items).Some?
    ensures |Pack(b, items).value| <= |items|
  {
    hide Fits, Flatten, Pack;
    PackIsPacking(b, items);
    FlattenLength(Pack(b, items).value);
  }

  // ----- Master -----

  datatype Entry = Entry(eventId: string, sequence: nat, body: string)

  datatype Master = Master(log: seq<Entry>)

  datatype Reply = Ack(lastSequence: nat, eventId: string, sequence: nat) | SequenceConflict

  function EntryOf(e: Event): Entry {
    Entry(e.eventId, e.sequence, e.body)
  }

  /** Master ingests strictly in sequence and answers a repeated event id without recording it again. */
  function Ingest(m: Master, e: Entry): (Master, Reply) {
    if e.sequence == |m.log| + 1 then (Master(m.log + [e]), Ack(e.sequence, e.eventId, e.sequence))
    else if 1 <= e.sequence <= |m.log| && m.log[e.sequence - 1].eventId == e.eventId then
      (m, Ack(|m.log|, e.eventId, e.sequence))
    else (m, SequenceConflict)
  }

  // ----- Delivery -----

  /** What becomes of one POST; `delivered` says whether Master got to process the request. */
  datatype Exchange =
    | Answered                                 // delivered, and the reply arrives
    | ConnectionError(delivered: bool)         // timeout, reset, truncated reply, ...
    | GarbledReply(delivered: bool)            // a 2xx reply that is not a valid acknowledgement
    | UnexpectedError(delivered: bool)         // an oversized reply, a redirect, ...
    | HttpError(status: nat, concurrent: bool, delivered: bool)
    | CrashBeforeClaim                         // the process stops before the event is claimed
    | CrashAfterClaim(delivered: bool)         // the process stops with the event marked SENDING

  /** One turn of the push loop: the clock, the lease and the fate of the request. */
  datatype Turn = Turn(now: int, staleAfter: nat, exchange: Exchange)

  datatype World = World(lite: Lite, master: Master)

  predicate Retryable(status: nat, concurrent: bool) {
    if status == 409 || status == 412 then status == 409 && concurrent
    else status == 408 || status == 425 || status == 429 || status == 401 || status == 403 || status >= 500
  }

  function Power2(n: nat): nat {
    if n == 0 then 1 else 2 * Power2(n - 1)
  }

  function RetryDelay(attempts: nat): nat {
    var seconds := Power2(if attempts < 1 then 1 else if attempts > 11 then 11 else attempts);
    if seconds > 3600 then 3600 else seconds
  }

  /** Index of the oldest unsent event, or the length if there is none. */
  function Head(events: seq<Event>): (h: nat)
    ensures h <= |events|
    ensures forall i :: 0 <= i < h ==> events[i].status == Sent
    ensures h < |events| ==> events[h].status != Sent
  {
    if events == [] || events[0].status != Sent then 0 else 1 + Head(events[1..])
  }

  /** How many events have been acknowledged. */
  function CountSent(events: seq<Event>): nat {
    if events == [] then 0 else CountSent(events[1..]) + (if events[0].status == Sent then 1 else 0)
  }

  function MarkBatch(batches: map<nat, BatchStatus>, e: Event, status: BatchStatus): map<nat, BatchStatus> {
    if e.aggregate == BatchAggregate && e.batchId.Some? && e.batchId.value in batches
    then batches[e.batchId.value := status] else batches
  }

  /** Store the row back, and give its batch the matching status. */
  function Store(lite: Lite, h: nat, e: Event, status: BatchStatus): Lite
    requires h < |lite.events|
  {
    lite.(events := lite.events[h := e], batches := MarkBatch(lite.batches, e, status))
  }

  function FailEvent(lite: Lite, h: nat, now: int, retryable: bool): Lite
    requires h < |lite.events|
  {
    var e := lite.events[h];
    Store(lite, h, e.(status := Failed, sendingAt := None,
      nextAttemptAt := if retryable then Some(now + RetryDelay(e.attempts)) else None), SyncFailed)
  }

  function ClaimEvent(lite: Lite, h: nat, now: int): Lite
    requires h < |lite.events|
  {
    var e := lite.events[h];
    Store(lite, h, e.(status := Sending, attempts := e.attempts + 1, sendingAt := Some(now), nextAttemptAt := None),
      Syncing)
  }

  function AcknowledgeEvent(lite: Lite, h: nat): Lite
    requires h < |lite.events|
  {
    Store(lite, h, lite.events[h].(status := Sent, sendingAt := None, nextAttemptAt := None), Synced)
  }

  /** A claim whose lease has run out is turned back into a failure that is due at once. */
  function RecoverEvent(lite: Lite, h: nat, now: int): Lite
    requires h < |lite.events|
  {
    lite.(events := lite.events[h := lite.events[h].(status := Failed, nextAttemptAt := Some(now), sendingAt := None)])
  }

  predicate LeaseHeld(e: Event, now: int, staleAfter: nat) {
    e.status == Sending && e.sendingAt.Some? && e.sendingAt.value + staleAfter > now
  }

  predicate NotDue(e: Event, now: int) {
    e.status == Failed && (e.nextAttemptAt.None? || e.nextAttemptAt.value > now)
  }

  predicate ValidAck(r: Reply, e: Event) {
    r.Ack? && r.lastSequence >= e.sequence && r.eventId == e.eventId && r.sequence == e.sequence
  }

  /** The claimed event is posted; the second result says whether the loop goes on. */
  function Post(w: World, h: nat, turn: Turn): (World, bool)
    requires h < |w.lite.events|
  {
    var e := w.lite.events[h];
    var (ingested, reply) := Ingest(w.master, EntryOf(e));
    match turn.exchange
    case Answered =>
      if ValidAck(reply, e) then (World(AcknowledgeEvent(w.lite, h), ingested), true)
      else (World(FailEvent(w.lite, h, turn.now, false), ingested), false)
    case ConnectionError(d) => (World(FailEvent(w.lite, h, turn.now, true), if d then ingested else w.master), false)
    case GarbledReply(d) => (World(FailEvent(w.lite, h, turn.now, true), if d then ingested else w.master), false)
    case UnexpectedError(d) => (World(FailEvent(w.lite, h, turn.now, false), if d then ingested else w.master), false)
    case HttpError(status, concurrent, d) =>
      (World(FailEvent(w.lite, h, turn.now, Retryable(status, concurrent)), if d then ingested else w.master), false)
    case CrashBeforeClaim => (w, false)
    case CrashAfterClaim(d) => (w.(master := if d then ingested else w.master), false)
  }

  /** One turn of the push loop. */
  function PushOne(w: World, turn: Turn): (World, bool) {
    var h := Head(w.lite.events);
    if h == |w.lite.events| || LeaseHeld(w.lite.events[h], turn.now, turn.staleAfter) then (w, false)
    else
      var lite := if w.lite.events[h].status == Sending then RecoverEvent(w.lite, h, turn.now) else w.lite;
      if NotDue(lite.events[h], turn.now) || turn.exchange == CrashBeforeClaim then (w.(lite := lite), false)
      else if Sha256(lite.events[h].body) != lite.events[h].digest then
        (w.(lite := FailEvent(lite, h, turn.now, false)), false)
      else Post(w.(lite := ClaimEvent(lite, h, turn.now)), h, turn)
  }

  /** `push_pending_events` with a limit of `|turns|` deliveries. */
  function PushAll(w: World, turns: seq<Turn>): World
    decreases |turns|
  {
    if turns == [] then w
    else
      var (w', more) := PushOne(w, turns[0]);
      if more then PushAll(w', turns[1..]) else w'
  }

  function Push(w: World, turns: seq<Turn>): World {
    if Initialized(w.lite) then PushAll(w, turns) else w
  }

  /** `retry_failed_event`: an administrator puts a failed event back in the queue. */
  function RetryFailed(lite: Lite, i: nat): Option<Lite> {
    if i >= |lite.events| || lite.events[i].status != Failed
       || Sha256(lite.events[i].body) != lite.events[i].digest then None
    else
      var e := lite.events[i];
      Some(lite.(
        events := lite.events[i := e.(status := Pending, nextAttemptAt := None, sendingAt := None)],
        batches := if e.batchId.Some? && e.batchId.value in lite.batches
          then lite.batches[e.batchId.value := PendingSync] else lite.batches))
  }

  // ----- Connecting -----

  /** The greatest sequence of a sent event, or 0. */
  function LastSent(events: seq<Event>): nat {
    if events == [] then 0
    else if events[|events| - 1].status == Sent then events[|events| - 1].sequence
    else LastSent(events[..|events| - 1])
  }

  function LatestSequence(events: seq<Event>): nat {
    if events == [] then 0 else events[|events| - 1].sequence
  }

  /** `verify_master_enrollment_identity` on the cursor Master returns for this node. */
  predicate CursorAccepted(minLast: nat, maxLast: nat, last: int, next: int) {
    && (minLast == 0 && maxLast == 0 ==> last == 0 && next == 1)
    && minLast <= last <= maxLast && next == last + 1
  }

  /** `_validate_connection_identity`, as far as the franchise code goes. */
  predicate IdentityAccepted(lite: Lite, code: string) {
    IsCode(code) && (lite.events != [] ==> code == lite.code && InitialInventoryQueued(lite.events, code))
  }

  /**
   `connect_to_master`. The settings file is written before the baseline is queued, so the code
   stays saved when the baseline is refused and the database rolled back.
   */
  function Connect(w: World, code: string, serials: seq<SerialRow>, actor: Json, occurredAt: string, ids: seq<string>)
    : World
    requires |ids| > |serials|
  {
    var cursor := |w.master.log|;
    if !IdentityAccepted(w.lite, code)
       || !CursorAccepted(LastSent(w.lite.events), LatestSequence(w.lite.events), cursor, cursor + 1) then w
    else
      var lite := w.lite.(code := code);
      if LatestSequence(lite.events) != 0 then w.(lite := lite)
      else
        match EnqueueInitial(lite, serials, actor, occurredAt, ids)
        case None => w.(lite := lite)
        case Some(queued) => w.(lite := queued)
  }

  /** `initialize_inventory`: only against a node Master reports as unused. */
  function Initialize(w: World, serials: seq<SerialRow>, actor: Json, occurredAt: string, ids: seq<string>): World
    requires |ids| > |serials|
  {
    var cursor := |w.master.log|;
    if !CursorAccepted(0, 0, cursor, cursor + 1) then w
    else
      match EnqueueInitial(w.lite, serials, actor, occurredAt, ids)
      case None => w
      case Some(queued) => w.(lite := queued)
  }

  /** `update_master_connection_settings`. */
  function SaveSettings(lite: Lite, code: string): Lite {
    if IdentityAccepted(lite, code) then lite.(code := code) else lite
  }
}
