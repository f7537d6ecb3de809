/**
 Every run of the outbox: connecting, settings changes, batch submissions, other events, pushes
 with any network behaviour and crashes, and administrators' retries, in any order.
 */
module OutboxRuns {
  import opened Options
  import opened CanonicalJson
  import opened EventEnvelope
  import opened BaselinePacking
  import opened Outbox

  datatype Step =
    | Connecting(code: string, serials: seq<SerialRow>, actor: Json, occurredAt: string, ids: seq<string>)
    | Initializing(serials: seq<SerialRow>, actor: Json, occurredAt: string, ids: seq<string>)
    | SavingSettings(code: string)
    | CreatingBatch(batchId: nat)
    | SubmittingBatch(batchId: nat, request: Request)
    | Enqueueing(request: Request) // relocations, receipts, transfers and QR replacements
    | Pushing(turns: seq<Turn>)
    | Retrying(index: nat)

  function OrElse(w: World, lite: Option<Lite>): World {
    match lite
    case None => w
    case Some(l) => w.(lite := l)
  }

  /** One committed transaction, or one push; a refused step changes nothing. */
  function Apply(w: World, s: Step): World {
    match s
    case Connecting(code, serials, actor, occurredAt, ids) =>
      if |ids| > |serials| then Connect(w, code, serials, actor, occurredAt, ids) else w
    case Initializing(serials, actor, occurredAt, ids) =>
      if |ids| > |serials| then Initialize(w, serials, actor, occurredAt, ids) else w
    case SavingSettings(code) => w.(lite := SaveSettings(w.lite, code))
    case CreatingBatch(b) =>
      if b in w.lite.batches then w else w.(lite := w.lite.(batches := w.lite.batches[b := Draft]))
    case SubmittingBatch(b, r) => OrElse(w, SubmitBatch(w.lite, b, r))
    case Enqueueing(r) =>
      if r.aggregate == BatchAggregate || r.batchId.Some? then w else OrElse(w, Enqueue(w.lite, r))
    case Pushing(turns) => Push(w, turns)
    case Retrying(i) => OrElse(w, RetryFailed(w.lite, i))
  }

  function Run(w: World, steps: seq<Step>): World {
    if steps == [] then w else Apply(Run(w, steps[..|steps| - 1]), steps[|steps| - 1])
  }

  /** A Lite that has not connected yet, beside a fresh node on Master. */
  predicate Start(w: World) {
    w.lite.events == [] && w.lite.batches == map[] && w.master.log == []
  }

  // ----- The invariant -----

  /** Sequences are consecutive from 1, ids are distinct, and every body matches its digest. */
  ghost predicate Numbered(events: seq<Event>) {
    && (forall i :: 0 <= i < |events| ==> events[i].sequence == i + 1 && events[i].digest == Sha256(events[i].body))
    && (forall i, j :: 0 <= i < j < |events| ==> events[i].eventId != events[j].eventId)
  }

  /** Sent events, then at most one event in any other state, then pending ones. */
  ghost predicate Shaped(events: seq<Event>) {
    forall i :: Head(events) < i < |events| ==> events[i].status == Pending
  }

  /** Master holds the sent events, and possibly the next one. */
  ghost predicate Delivered(w: World) {
    var k := Head(w.lite.events);
    && k <= |w.master.log| <= k + 1
    && |w.master.log| <= |w.lite.events|
    && forall i :: 0 <= i < |w.master.log| ==> w.master.log[i] == EntryOf(w.lite.events[i])
  }

  predicate Matches(event: EventStatus, batch: BatchStatus) {
    match event
    case Pending => batch == PendingSync
    case Sending => batch == Syncing
    case Sent => batch == Synced
    case Failed => batch == SyncFailed || batch == Syncing // recovered, but not claimed again yet
  }

  ghost predicate Reports(e: Event, batchId: nat) {
    e.batchId == Some(batchId)
  }

  /** Batches that have left the draft state have exactly one event, and agree with it. */
  ghost predicate Tracked(lite: Lite) {
    && (forall e <- lite.events :: e.batchId.Some? <==> e.aggregate == BatchAggregate)
    && (forall i, j, b :: 0 <= i < j < |lite.events| && Reports(lite.events[i], b) ==> !Reports(lite.events[j], b))
    && (forall i, b :: 0 <= i < |lite.events| && Reports(lite.events[i], b) ==>
          b in lite.batches && Matches(lite.events[i].status, lite.batches[b]))
    && (forall b <- lite.batches :: lite.batches[b] != Draft ==> exists e <- lite.events :: Reports(e, b))
  }

  /** The first `n` events, and no others, are the baseline, under the configured code. */
  ghost predicate EnrolledBy(lite: Lite, n: nat) {
    && 1 <= n <= |lite.events|
    && ConfiguredCode(lite.code).Some?
    && (forall i :: 0 <= i < |lite.events| ==> (i < n <==> lite.events[i].aggregate == InitialInventory))
    && forall i :: 0 <= i < n ==> ReferencePrefix(ConfiguredCode(lite.code).value) <= lite.events[i].aggregateId
  }

  ghost predicate Enrolled(lite: Lite) {
    lite.events != [] ==> exists n: nat :: EnrolledBy(lite, n)
  }

  ghost predicate Valid(w: World) {
    && Numbered(w.lite.events) && Shaped(w.lite.events) && Delivered(w)
    && Tracked(w.lite) && Enrolled(w.lite)
  }

  // ----- Updating one row -----

  /** Everything but the delivery state is as it was frozen. */
  predicate SameFrozen(e: Event, f: Event) {
    f == e.(status := f.status, attempts := f.attempts, nextAttemptAt := f.nextAttemptAt, sendingAt := f.sendingAt)
  }

  lemma {:induction false} HeadIs(events: seq<Event>, k: nat)
    requires k <= |events| && (forall i :: 0 <= i < k ==> events[i].status == Sent)
    requires k < |events| ==> events[k].status != Sent
    ensures Head(events) == k
  {
    if k > 0 {
      HeadIs(events[1..], k - 1);
    }
  }

  lemma UpdateShape(events: seq<Event>, h: nat, f: Event)
    requires Shaped(events) && h == Head(events) < |events|
    ensures Shaped(events[h := f])
    ensures Head(events[h := f]) == if f.status == Sent then h + 1 else h
  {
    HeadIs(events[h := f], if f.status == Sent then h + 1 else h);
  }

  lemma UpdateNumbered(events: seq<Event>, h: nat, f: Event)
    requires Numbered(events) && h < |events| && SameFrozen(events[h], f)
    ensures Numbered(events[h := f])
  {
  }

  lemma UpdateEnrolled(lite: Lite, h: nat, f: Event, batches: map<nat, BatchStatus>)
    requires Enrolled(lite) && h < |lite.events| && SameFrozen(lite.events[h], f)
    ensures Enrolled(lite.(events := lite.events[h := f], batches := batches))
  {
    hide ReferencePrefix, ConfiguredCode;
    var n: nat :| EnrolledBy(lite, n);
    assert EnrolledBy(lite.(events := lite.events[h := f], batches := batches), n);
  }

  /** The row and its batch move together. */
  lemma UpdateTracked(lite: Lite, h: nat, f: Event, batches: map<nat, BatchStatus>)
    requires Tracked(lite) && h < |lite.events| && SameFrozen(lite.events[h], f)
    requires batches.Keys == lite.batches.Keys
    requires forall b <- batches :: !Reports(f, b) ==> batches[b] == lite.batches[b]
    requires forall b <- batches :: Reports(f, b) ==> Matches(f.status, batches[b])
    ensures Tracked(lite.(events := lite.events[h := f], batches := batches))
  {
    hide Matches, SameFrozen, Reports;
    var after := lite.(events := lite.events[h := f], batches := batches);
    UpdateOwners(lite.events, h, f);
    forall e <- after.events
      ensures e.batchId.Some? <==> e.aggregate == BatchAggregate
    {
      var i :| 0 <= i < |after.events| && after.events[i] == e;
      assert lite.events[i] in lite.events;
    }
    UpdateMatches(lite, h, f, batches);
    forall b <- batches | batches[b] != Draft
      ensures exists e <- after.events :: Reports(e, b)
    {
      StillReported(lite, h, f, b, batches);
    }
  }

  lemma UpdateOwners(events: seq<Event>, h: nat, f: Event)
    requires h < |events| && SameFrozen(events[h], f)
    ensures var after := events[h := f];
            forall i :: 0 <= i < |after| ==>
              after[i].batchId == events[i].batchId && after[i].aggregate == events[i].aggregate
    ensures var after := events[h := f];
            forall i, b :: 0 <= i < |after| ==> (Reports(after[i], b) <==> Reports(events[i], b))
  {
  }

  lemma UpdateMatches(lite: Lite, h: nat, f: Event, batches: map<nat, BatchStatus>)
    requires Tracked(lite) && h < |lite.events| && SameFrozen(lite.events[h], f)
    requires batches.Keys == lite.batches.Keys
    requires forall b <- batches :: !Reports(f, b) ==> batches[b] == lite.batches[b]
    requires forall b <- batches :: Reports(f, b) ==> Matches(f.status, batches[b])
    ensures var after := lite.events[h := f];
            forall i, b :: 0 <= i < |after| && Reports(after[i], b) ==>
              b in batches && Matches(after[i].status, batches[b])
  {
    hide Matches, SameFrozen, Reports;
    UpdateOwners(lite.events, h, f);
    var after := lite.events[h := f];
    forall i, b | 0 <= i < |lite.events| && Reports(after[i], b)
      ensures b in batches && Matches(after[i].status, batches[b])
    {
      assert Reports(lite.events[i], b) && b in lite.batches;
      assert Reports(lite.events[h], b) <==> Reports(f, b) by { assert after[h] == f; }
      if i != h {
        assert !Reports(f, b);
      }
    }
  }

  lemma StillReported(lite: Lite, h: nat, f: Event, b: nat, batches: map<nat, BatchStatus>)
    requires Tracked(lite) && h < |lite.events| && SameFrozen(lite.events[h], f)
    requires b in batches && batches[b] != Draft && b in lite.batches
    requires !Reports(f, b) ==> batches[b] == lite.batches[b]
    ensures exists e <- lite.events[h := f] :: Reports(e, b)
  {
    hide Matches, SameFrozen, Reports;
    var after := lite.events[h := f];
    UpdateOwners(lite.events, h, f);
    if Reports(f, b) {
      assert after[h] == f;
    } else {
      var e :| e in lite.events && Reports(e, b);
      var i :| 0 <= i < |lite.events| && lite.events[i] == e;
      assert Reports(after[i], b) && after[i] in after;
    }
  }

  lemma UpdateDelivered(w: World, h: nat, f: Event, master: Master, batches: map<nat, BatchStatus>)
    requires Numbered(w.lite.events) && Shaped(w.lite.events) && Delivered(w)
    requires h == Head(w.lite.events) < |w.lite.events| && SameFrozen(w.lite.events[h], f)
    requires master == w.master || (master == Ingest(w.master, EntryOf(f)).0)
    requires f.status == Sent ==> |master.log| > h
    ensures Delivered(World(w.lite.(events := w.lite.events[h := f], batches := batches), master))
  {
    UpdateShape(w.lite.events, h, f);
    assert EntryOf(f) == EntryOf(w.lite.events[h]);
  }

  /** Master accepts the head event, whether or not it already has it. */
  lemma HeadIsIngested(w: World, h: nat)
    requires Numbered(w.lite.events) && Delivered(w)
    requires h == Head(w.lite.events) < |w.lite.events|
    ensures var (m, reply) := Ingest(w.master, EntryOf(w.lite.events[h]));
      |m.log| == h + 1 && ValidAck(reply, w.lite.events[h])
  {
  }

  ghost predicate RowUpdate(w: World, h: nat, f: Event, batches: map<nat, BatchStatus>, master: Master) {
    && h == Head(w.lite.events) < |w.lite.events|
    && SameFrozen(w.lite.events[h], f)
    && (master == w.master || master == Ingest(w.master, EntryOf(f)).0)
    && (f.status == Sent ==> |master.log| > h)
    && batches.Keys == w.lite.batches.Keys
    && (forall b <- batches :: !Reports(f, b) ==> batches[b] == w.lite.batches[b])
    && (forall b <- batches :: Reports(f, b) ==> Matches(f.status, batches[b]))
  }

  lemma RowUpdateKeepsValid(w: World, h: nat, f: Event, batches: map<nat, BatchStatus>, master: Master)
    requires Valid(w) && RowUpdate(w, h, f, batches, master)
    ensures Valid(World(w.lite.(events := w.lite.events[h := f], batches := batches), master))
  {
    hide Tracked, Enrolled, Numbered, Shaped, Delivered, Ingest, Matches;
    UpdateNumbered(w.lite.events, h, f);
    UpdateShape(w.lite.events, h, f);
    UpdateDelivered(w, h, f, master, batches);
    UpdateTracked(w.lite, h, f, batches);
    UpdateEnrolled(w.lite, h, f, batches);
  }

  lemma StoreKeepsValid(w: World, h: nat, f: Event, status: BatchStatus, master: Master)
    requires Valid(w) && h == Head(w.lite.events) < |w.lite.events| && SameFrozen(w.lite.events[h], f)
    requires Matches(f.status, status)
    requires master == w.master || master == Ingest(w.master, EntryOf(f)).0
    requires f.status == Sent ==> |master.log| > h
    ensures Valid(World(Store(w.lite, h, f, status), master))
  {
    hide Ingest, Numbered, Shaped, Delivered, Enrolled, Tracked, RowUpdate, MarkBatch, Matches, SameFrozen;
    var batches := MarkBatch(w.lite.batches, f, status);
    StoreIsRowUpdate(w, h, f, status, master);
    RowUpdateKeepsValid(w, h, f, batches, master);
  }

  lemma StoreIsRowUpdate(w: World, h: nat, f: Event, status: BatchStatus, master: Master)
    requires Tracked(w.lite) && h == Head(w.lite.events) < |w.lite.events| && SameFrozen(w.lite.events[h], f)
    requires Matches(f.status, status)
    requires master == w.master || master == Ingest(w.master, EntryOf(f)).0
    requires f.status == Sent ==> |master.log| > h
    ensures RowUpdate(w, h, f, MarkBatch(w.lite.batches, f, status), master)
  {
    hide Ingest, Matches, Head;
    assert w.lite.events[h] in w.lite.events;
  }

  lemma RecoverKeepsValid(w: World, h: nat, now: int)
    requires Valid(w) && h == Head(w.lite.events) < |w.lite.events| && w.lite.events[h].status == Sending
    ensures Valid(w.(lite := RecoverEvent(w.lite, h, now)))
  {
    hide Ingest, Numbered, Shaped, Delivered, Enrolled;
    var f := w.lite.events[h].(status := Failed, nextAttemptAt := Some(now), sendingAt := None);
    forall b <- w.lite.batches | Reports(f, b)
      ensures Matches(f.status, w.lite.batches[b])
    {
      assert Reports(w.lite.events[h], b);
    }
    assert RowUpdate(w, h, f, w.lite.batches, w.master);
    RowUpdateKeepsValid(w, h, f, w.lite.batches, w.master);
  }

  // ----- Pushing -----

  /** What every push keeps of the world: the invariant, the frozen rows and Master's log. */
  ghost predicate Grows(w: World, w': World) {
    && w'.lite.code == w.lite.code
    && |w'.lite.events| == |w.lite.events|
    && (forall i :: 0 <= i < |w.lite.events| ==> SameFrozen(w.lite.events[i], w'.lite.events[i]))
    && w.master.log <= w'.master.log
  }

  lemma IngestGrows(m: Master, e: Entry)
    ensures m.log <= Ingest(m, e).0.log
  {
  }

  lemma FailKeepsValid(w: World, h: nat, now: int, retryable: bool, master: Master)
    requires Valid(w) && h == Head(w.lite.events) < |w.lite.events|
    requires master == w.master || master == Ingest(w.master, EntryOf(w.lite.events[h])).0
    ensures var w' := World(FailEvent(w.lite, h, now, retryable), master); Valid(w') && Grows(w, w')
  {
    hide Valid, Ingest, RetryDelay;
    var e := w.lite.events[h];
    var f := e.(status := Failed, sendingAt := None,
      nextAttemptAt := if retryable then Some(now + RetryDelay(e.attempts)) else None);
    IngestGrows(w.master, EntryOf(e));
    StoreKeepsValid(w, h, f, SyncFailed, master);
  }

  lemma ClaimKeepsValid(w: World, h: nat, now: int)
    requires Valid(w) && h == Head(w.lite.events) < |w.lite.events|
    ensures var w' := w.(lite := ClaimEvent(w.lite, h, now)); Valid(w') && Grows(w, w') && Head(w'.lite.events) == h
  {
    hide Ingest, Numbered, Delivered, Tracked, Enrolled, Shaped;
    var e := w.lite.events[h];
    var f := e.(status := Sending, attempts := e.attempts + 1, sendingAt := Some(now), nextAttemptAt := None);
    StoreKeepsValid(w, h, f, Syncing, w.master);
    UpdateShape(w.lite.events, h, f);
  }

  lemma AcknowledgeKeepsValid(w: World, h: nat)
    requires Valid(w) && h == Head(w.lite.events) < |w.lite.events|
    ensures var w' := World(AcknowledgeEvent(w.lite, h), Ingest(w.master, EntryOf(w.lite.events[h])).0);
      Valid(w') && Grows(w, w')
  {
    hide Ingest, Numbered, Delivered, Tracked, Enrolled, Shaped;
    var e := w.lite.events[h];
    HeadIsIngested(w, h);
    IngestGrows(w.master, EntryOf(e));
    StoreKeepsValid(w, h, e.(status := Sent, sendingAt := None, nextAttemptAt := None), Synced,
      Ingest(w.master, EntryOf(e)).0);
  }

  lemma MasterMayIngest(w: World, h: nat, delivered: bool)
    requires Valid(w) && h == Head(w.lite.events) < |w.lite.events|
    ensures var w' := w.(master := if delivered then Ingest(w.master, EntryOf(w.lite.events[h])).0 else w.master);
      Valid(w') && Grows(w, w')
  {
    hide Numbered, Shaped, Tracked, Enrolled;
    HeadNumbered(w, h);
  }

  /** The part of numbering that Master's ingestion of the head event depends on. */
  lemma HeadNumbered(w: World, h: nat)
    requires Valid(w) && h == Head(w.lite.events) < |w.lite.events|
    ensures w.lite.events[h].sequence == h + 1
    ensures |w.master.log| == h + 1 ==> w.master.log[h] == EntryOf(w.lite.events[h])
  {
  }

  lemma PostKeepsValid(w: World, h: nat, turn: Turn)
    requires Valid(w) && h == Head(w.lite.events) < |w.lite.events|
    ensures Valid(Post(w, h, turn).0) && Grows(w, Post(w, h, turn).0)
  {
    hide Valid, Ingest, FailEvent, AcknowledgeEvent, Grows, ValidAck, Retryable;
    var (ingested, reply) := Ingest(w.master, EntryOf(w.lite.events[h]));
    match turn.exchange
    case Answered =>
      AcknowledgeKeepsValid(w, h);
      FailKeepsValid(w, h, turn.now, false, ingested);
    case ConnectionError(d) => FailKeepsValid(w, h, turn.now, true, if d then ingested else w.master);
    case GarbledReply(d) => FailKeepsValid(w, h, turn.now, true, if d then ingested else w.master);
    case UnexpectedError(d) => FailKeepsValid(w, h, turn.now, false, if d then ingested else w.master);
    case HttpError(status, concurrent, d) =>
      FailKeepsValid(w, h, turn.now, Retryable(status, concurrent), if d then ingested else w.master);
    case CrashBeforeClaim => MasterMayIngest(w, h, false);
    case CrashAfterClaim(d) => MasterMayIngest(w, h, d);
  }

  lemma GrowsTrans(u: World, v: World, w: World)
    requires Grows(u, v) && Grows(v, w)
    ensures Grows(u, w)
  {
  }

  lemma RecoveredHead(w: World, h: nat, now: int)
    requires Valid(w) && h == Head(w.lite.events) < |w.lite.events| && w.lite.events[h].status == Sending
    ensures var w' := w.(lite := RecoverEvent(w.lite, h, now));
      Valid(w') && Grows(w, w') && Head(w'.lite.events) == h
  {
    RecoverKeepsValid(w, h, now);
    UpdateShape(w.lite.events, h, w.lite.events[h].(status := Failed, nextAttemptAt := Some(now), sendingAt := None));
  }

  lemma PushOneKeepsValid(w: World, turn: Turn)
    requires Valid(w)
    ensures Valid(PushOne(w, turn).0) && Grows(w, PushOne(w, turn).0)
  {
    hide Valid, Post, FailEvent, ClaimEvent, RecoverEvent, Grows, NotDue, LeaseHeld, Head;
    var h := Head(w.lite.events);
    GrowsSelf(w);
    if h < |w.lite.events| && !LeaseHeld(w.lite.events[h], turn.now, turn.staleAfter) {
      var w1 := w;
      if w.lite.events[h].status == Sending {
        RecoveredHead(w, h, turn.now);
        w1 := w.(lite := RecoverEvent(w.lite, h, turn.now));
      }
      GrowsSameLength(w, w1);
      AttemptKeepsValid(w, w1, h, turn);
    }
  }

  /** Whether it fails its digest or is posted, the attempt keeps what the turn has kept so far. */
  lemma AttemptKeepsValid(w: World, w1: World, h: nat, turn: Turn)
    requires Valid(w1) && Grows(w, w1) && h == Head(w1.lite.events) < |w1.lite.events|
    ensures var failed := w1.(lite := FailEvent(w1.lite, h, turn.now, false)); Valid(failed) && Grows(w, failed)
    ensures var w2 := w1.(lite := ClaimEvent(w1.lite, h, turn.now));
            h < |w2.lite.events| && Valid(Post(w2, h, turn).0) && Grows(w, Post(w2, h, turn).0)
  {
    hide Valid, Post, FailEvent, ClaimEvent, Grows, Head;
    FailKeepsValid(w1, h, turn.now, false, w1.master);
    GrowsTrans(w, w1, w1.(lite := FailEvent(w1.lite, h, turn.now, false)));
    ClaimKeepsValid(w1, h, turn.now);
    var w2 := w1.(lite := ClaimEvent(w1.lite, h, turn.now));
    GrowsSameLength(w1, w2);
    PostKeepsValid(w2, h, turn);
    GrowsTrans(w, w1, w2);
    GrowsTrans(w, w2, Post(w2, h, turn).0);
  }

  lemma GrowsSelf(w: World)
    ensures Grows(w, w)
  {
  }

  lemma GrowsSameLength(w: World, w': World)
    requires Grows(w, w')
    ensures |w'.lite.events| == |w.lite.events|
  {
  }

  lemma {:induction false} PushAllKeepsValid(w: World, turns: seq<Turn>)
    requires Valid(w)
    ensures Valid(PushAll(w, turns)) && Grows(w, PushAll(w, turns))
    decreases |turns|
  {
    hide Valid, PushOne, Grows;
    if turns == [] {
      GrowsSelf(w);
    } else {
      var w' := PushOne(w, turns[0]).0;
      PushOneKeepsValid(w, turns[0]);
      PushAllKeepsValid(w', turns[1..]);
      GrowsTrans(w, w', PushAll(w', turns[1..]));
    }
  }

  // ----- Retrying -----

  lemma RetryKeepsValid(w: World, i: nat)
    requires Valid(w) && RetryFailed(w.lite, i).Some?
    ensures var w' := w.(lite := RetryFailed(w.lite, i).value); Valid(w') && Grows(w, w')
  {
    hide Ingest, Numbered, Delivered, Enrolled;
    var e := w.lite.events[i];
    assert i == Head(w.lite.events);
    assert e in w.lite.events;
    var f := e.(status := Pending, nextAttemptAt := None, sendingAt := None);
    var batches := RetryFailed(w.lite, i).value.batches;
    assert RowUpdate(w, i, f, batches, w.master);
    RowUpdateKeepsValid(w, i, f, batches, w.master);
  }

  // ----- Enqueueing -----

  lemma InsertIsSnoc(events: seq<Event>, r: Request)
    requires Insert(events, r).Some?
    ensures Insert(events, r).value == events + [Frozen(r, |events| + 1)]
    ensures !HasEventId(events, r.eventId)
  {
    hide Frozen, Acceptable;
  }

  lemma FrozenFields(r: Request, sequence: nat)
    ensures var e := Frozen(r, sequence);
      && e.sequence == sequence && e.eventId == r.eventId && e.aggregate == r.aggregate
      && e.aggregateId == r.aggregateId && e.batchId == r.batchId
      && e.digest == Sha256(e.body) && e.status == Pending
  {
    hide FrozenEventJson;
  }

  lemma AppendNumbered(events: seq<Event>, e: Event)
    requires Numbered(events) && e.sequence == |events| + 1 && e.digest == Sha256(e.body)
    requires !HasEventId(events, e.eventId)
    ensures Numbered(events + [e])
  {
    forall i | 0 <= i < |events|
      ensures events[i].eventId != e.eventId
    {
      assert events[i] in events;
    }
  }

  lemma AppendShape(events: seq<Event>, e: Event)
    requires Shaped(events) && e.status == Pending
    ensures Shaped(events + [e]) && Head(events + [e]) == Head(events)
  {
    HeadIs(events + [e], Head(events));
  }

  lemma AppendDelivered(w: World, e: Event, batches: map<nat, BatchStatus>)
    requires Shaped(w.lite.events) && Delivered(w) && e.status == Pending
    ensures Delivered(w.(lite := w.lite.(events := w.lite.events + [e], batches := batches)))
  {
    AppendShape(w.lite.events, e);
  }

  lemma PendingMatches()
    ensures Matches(Pending, PendingSync)
  {
  }

  lemma AppendTracked(lite: Lite, e: Event, batches: map<nat, BatchStatus>)
    requires Tracked(lite) && e.status == Pending
    requires e.batchId.Some? <==> e.aggregate == BatchAggregate
    requires e.batchId.None? ==> batches == lite.batches
    requires e.batchId.Some? ==>
      (e.batchId.value in lite.batches && lite.batches[e.batchId.value] == Draft
       && batches == lite.batches[e.batchId.value := PendingSync])
    ensures Tracked(lite.(events := lite.events + [e], batches := batches))
  {
    hide Matches;
    var after := lite.events + [e];
    if e.batchId.Some? {
      NoEventForDraft(lite, e.batchId.value);
      PendingMatches();
    }
    assert after[|lite.events|] == e;
    forall b <- batches | batches[b] != Draft
      ensures exists f <- after :: Reports(f, b)
    {
      if !Reports(e, b) {
        var f :| f in lite.events && Reports(f, b);
        assert f in after;
      }
    }
  }

  lemma NoEventForDraft(lite: Lite, b: nat)
    requires Tracked(lite) && b in lite.batches && lite.batches[b] == Draft
    ensures forall e <- lite.events :: !Reports(e, b)
  {
    forall e <- lite.events
      ensures !Reports(e, b)
    {
      var i :| 0 <= i < |lite.events| && lite.events[i] == e;
    }
  }

  lemma AppendEnrolled(lite: Lite, e: Event, batches: map<nat, BatchStatus>)
    requires Enrolled(lite) && lite.events != [] && e.aggregate != InitialInventory
    ensures Enrolled(lite.(events := lite.events + [e], batches := batches))
  {
    hide ReferencePrefix, ConfiguredCode;
    var n: nat :| EnrolledBy(lite, n);
    assert EnrolledBy(lite.(events := lite.events + [e], batches := batches), n);
  }

  lemma InitializedNonEmpty(lite: Lite)
    requires Initialized(lite)
    ensures lite.events != []
  {
  }

  lemma EnqueueKeepsValid(w: World, r: Request)
    requires Valid(w) && r.aggregate != BatchAggregate && r.batchId.None? && Enqueue(w.lite, r).Some?
    ensures Valid(w.(lite := Enqueue(w.lite, r).value))
  {
    hide Numbered, Shaped, Delivered, Tracked, Enrolled, Insert, Frozen, Initialized;
    AppendKeepsValid(w, r, w.lite.batches);
  }

  lemma AppendKeepsValid(w: World, r: Request, batches: map<nat, BatchStatus>)
    requires Valid(w) && Initialized(w.lite) && r.aggregate != InitialInventory && Insert(w.lite.events, r).Some?
    requires r.batchId.Some? <==> r.aggregate == BatchAggregate
    requires r.batchId.None? ==> batches == w.lite.batches
    requires r.batchId.Some? ==>
      (r.batchId.value in w.lite.batches && w.lite.batches[r.batchId.value] == Draft
       && batches == w.lite.batches[r.batchId.value := PendingSync])
    ensures Valid(w.(lite := w.lite.(events := Insert(w.lite.events, r).value, batches := batches)))
  {
    hide Numbered, Shaped, Delivered, Tracked, Enrolled, Insert, Frozen, Initialized;
    var e := Frozen(r, |w.lite.events| + 1);
    InitializedNonEmpty(w.lite);
    InsertIsSnoc(w.lite.events, r);
    FrozenFields(r, |w.lite.events| + 1);
    AppendNumbered(w.lite.events, e);
    AppendShape(w.lite.events, e);
    AppendDelivered(w, e, batches);
    AppendTracked(w.lite, e, batches);
    AppendEnrolled(w.lite, e, batches);
  }

  lemma SubmitKeepsValid(w: World, b: nat, r: Request)
    requires Valid(w) && SubmitBatch(w.lite, b, r).Some?
    ensures Valid(w.(lite := SubmitBatch(w.lite, b, r).value))
  {
    hide Numbered, Shaped, Delivered, Tracked, Enrolled, Insert, Frozen, Initialized;
    AppendKeepsValid(w, r.(aggregate := BatchAggregate, batchId := Some(b)), w.lite.batches[b := PendingSync]);
  }

  // ----- The baseline -----

  lemma ReferenceHasPrefix(code: string, part: nat)
    ensures ReferencePrefix(code) <= Reference(code, part)
  {
  }

  /** Each part's event, in order: `n` parts make `n` events, numbered from 1. */
  lemma {:induction false} InsertPartsEvents(b: Baseline, parts: seq<Part>, ids: seq<string>, n: nat)
    requires n <= |parts| && n <= |ids| && InsertParts(b, parts, ids, n).Some?
    ensures var events := InsertParts(b, parts, ids, n).value;
      && |events| == n && Numbered(events)
      && forall i :: 0 <= i < n ==> events[i] == Frozen(PartRequest(b, i + 1, parts[i], ids[i]), i + 1)
  {
    hide Frozen, PartRequest, Insert, Numbered;
    if n == 0 {
      EmptyNumbered();
    } else {
      InsertPartsEvents(b, parts, ids, n - 1);
      var before := InsertParts(b, parts, ids, n - 1).value;
      var r := PartRequest(b, n, parts[n - 1], ids[n - 1]);
      InsertIsSnoc(before, r);
      FrozenFields(r, n);
      AppendNumbered(before, Frozen(r, n));
    }
  }

  lemma EmptyNumbered()
    ensures Numbered([])
  {
  }

  /** Freshly queued baseline events: all pending, none of them about a batch. */
  ghost predicate FreshBaseline(events: seq<Event>, code: string) {
    && events != [] && Numbered(events)
    && forall e <- events :: e.aggregate == InitialInventory && e.batchId.None? && e.status == Pending
         && ReferencePrefix(code) <= e.aggregateId
  }

  lemma EnqueueInitialFresh(lite: Lite, serials: seq<SerialRow>, actor: Json, occurredAt: string, ids: seq<string>)
    requires |ids| > |serials| && EnqueueInitial(lite, serials, actor, occurredAt, ids).Some?
    ensures var lite' := EnqueueInitial(lite, serials, actor, occurredAt, ids).value;
      && lite.events == [] && lite' == lite.(events := lite'.events)
      && ConfiguredCode(lite.code).Some? && FreshBaseline(lite'.events, ConfiguredCode(lite.code).value)
  {
    hide Frozen, Insert, Pack, Numbered, ReferencePrefix, Reference, ConfiguredCode, InsertParts, InitialPayload;
    var code := ConfiguredCode(lite.code).value;
    var b := Baseline(code, actor, occurredAt);
    var items := BaselineItems(serials);
    if items == [] {
      var r := EmptyRequest(b, ids[0]);
      InsertIsSnoc([], r);
      FrozenFields(r, 1);
      EmptyNumbered();
      AppendNumbered([], Frozen(r, 1));
      assert [] + [Frozen(r, 1)] == [Frozen(r, 1)];
    } else {
      var parts := Pack(b, items).value;
      PartsFewerThanItems(b, items);
      BaselineItemsFewer(serials);
      InsertPartsEvents(b, parts, ids, |parts|);
      SomeParts(b, items);
      forall i | 0 <= i < |parts|
        ensures var e := Frozen(PartRequest(b, i + 1, parts[i], ids[i]), i + 1);
          && e.aggregate == InitialInventory && e.batchId.None? && e.status == Pending
          && ReferencePrefix(code) <= e.aggregateId
      {
        FrozenFields(PartRequest(b, i + 1, parts[i], ids[i]), i + 1);
        ReferenceHasPrefix(code, i + 1);
      }
    }
  }

  lemma SomeParts(b: Baseline, items: seq<Json>)
    requires Pack(b, items).Some? && items != []
    ensures Pack(b, items).value != []
  {
    hide Pack;
    PackIsPacking(b, items);
    FlattenNothing();
  }

  lemma FreshBaselineKeepsValid(w: World, code: string, events: seq<Event>)
    requires Valid(w) && w.lite.events == []
    requires ConfiguredCode(code).Some? && FreshBaseline(events, ConfiguredCode(code).value)
    ensures Valid(w.(lite := w.lite.(code := code, events := events)))
  {
    hide ReferencePrefix, ConfiguredCode, Numbered, Tracked, Enrolled, Delivered, Shaped;
    FreshIsShaped(w, code, events);
    FreshIsTracked(w.lite, code, events);
    FreshIsEnrolled(w.lite, code, events);
  }

  lemma FreshIsShaped(w: World, code: string, events: seq<Event>)
    requires Delivered(w) && w.lite.events == [] && FreshBaseline(events, ConfiguredCode(code).GetOr(""))
    ensures Numbered(events) && Shaped(events) && Delivered(w.(lite := w.lite.(code := code, events := events)))
  {
    hide ReferencePrefix, ConfiguredCode, Numbered;
    assert forall i :: 0 <= i < |events| ==> events[i] in events;
    HeadIs(events, 0);
  }

  lemma FreshIsTracked(lite: Lite, code: string, events: seq<Event>)
    requires Tracked(lite) && lite.events == [] && FreshBaseline(events, ConfiguredCode(code).GetOr(""))
    ensures Tracked(lite.(code := code, events := events))
  {
    hide ReferencePrefix, ConfiguredCode, Numbered, Matches;
    assert forall i :: 0 <= i < |events| ==> events[i] in events;
    assert forall b <- lite.batches :: lite.batches[b] == Draft;
  }

  lemma FreshIsEnrolled(lite: Lite, code: string, events: seq<Event>)
    requires ConfiguredCode(code).Some? && FreshBaseline(events, ConfiguredCode(code).value)
    ensures Enrolled(lite.(code := code, events := events))
  {
    hide ReferencePrefix, ConfiguredCode, Numbered;
    assert forall i :: 0 <= i < |events| ==> events[i] in events;
    assert EnrolledBy(lite.(code := code, events := events), |events|);
  }

  lemma InitialKeepsValid(w: World, code: string, serials: seq<SerialRow>, actor: Json, occurredAt: string,
                          ids: seq<string>)
    requires Valid(w) && |ids| > |serials|
    requires EnqueueInitial(w.lite.(code := code), serials, actor, occurredAt, ids).Some?
    ensures Valid(w.(lite := EnqueueInitial(w.lite.(code := code), serials, actor, occurredAt, ids).value))
  {
    hide Valid, FreshBaseline, EnqueueInitial, ConfiguredCode;
    var lite := w.lite.(code := code);
    EnqueueInitialFresh(lite, serials, actor, occurredAt, ids);
    FreshBaselineKeepsValid(w, code, EnqueueInitial(lite, serials, actor, occurredAt, ids).value.events);
  }

  /** The code may still be changed while nothing is queued, and afterwards only to itself. */
  lemma CodeKeepsValid(w: World, code: string)
    requires Valid(w) && (w.lite.events != [] ==> code == w.lite.code)
    ensures Valid(w.(lite := w.lite.(code := code)))
  {
  }

  lemma ConnectKeepsValid(w: World, code: string, serials: seq<SerialRow>, actor: Json, occurredAt: string,
                          ids: seq<string>)
    requires Valid(w) && |ids| > |serials|
    ensures Valid(Connect(w, code, serials, actor, occurredAt, ids))
  {
    hide Valid, EnqueueInitial, CursorAccepted, LastSent, LatestSequence;
    if IdentityAccepted(w.lite, code) {
      CodeKeepsValid(w, code);
      if EnqueueInitial(w.lite.(code := code), serials, actor, occurredAt, ids).Some? {
        InitialKeepsValid(w, code, serials, actor, occurredAt, ids);
      }
    }
  }

  lemma InitializeKeepsValid(w: World, serials: seq<SerialRow>, actor: Json, occurredAt: string, ids: seq<string>)
    requires Valid(w) && |ids| > |serials|
    ensures Valid(Initialize(w, serials, actor, occurredAt, ids))
  {
    hide Valid, EnqueueInitial, CursorAccepted;
    if EnqueueInitial(w.lite, serials, actor, occurredAt, ids).Some? {
      assert w.lite.(code := w.lite.code) == w.lite;
      InitialKeepsValid(w, w.lite.code, serials, actor, occurredAt, ids);
    }
  }

  // ----- Every run -----

  lemma StartIsValid(w: World)
    requires Start(w)
    ensures Valid(w)
  {
  }

  lemma CreateTracked(lite: Lite, b: nat)
    requires Tracked(lite) && b !in lite.batches
    ensures Tracked(lite.(batches := lite.batches[b := Draft]))
  {
    hide Matches;
  }

  lemma CreateKeepsValid(w: World, b: nat)
    requires Valid(w) && b !in w.lite.batches
    ensures Valid(w.(lite := w.lite.(batches := w.lite.batches[b := Draft])))
  {
    hide Numbered, Shaped, EnrolledBy, Tracked;
    var after := w.lite.(batches := w.lite.batches[b := Draft]);
    assert Tracked(after) by { CreateTracked(w.lite, b); }
    forall n: nat | EnrolledBy(w.lite, n)
      ensures EnrolledBy(after, n)
    {
      SameEnrolment(w.lite, after, n);
    }
  }

  lemma SameEnrolment(lite: Lite, after: Lite, n: nat)
    requires EnrolledBy(lite, n) && after.events == lite.events && after.code == lite.code
    ensures EnrolledBy(after, n)
  {
  }

  lemma StepKeepsValid(w: World, s: Step)
    requires Valid(w)
    ensures Valid(Apply(w, s))
  {
    hide Valid, Connect, Initialize, SubmitBatch, Enqueue, PushAll, RetryFailed, Initialized;
    match s
    case Connecting(code, serials, actor, occurredAt, ids) =>
      if |ids| > |serials| { ConnectKeepsValid(w, code, serials, actor, occurredAt, ids); }
    case Initializing(serials, actor, occurredAt, ids) =>
      if |ids| > |serials| { InitializeKeepsValid(w, serials, actor, occurredAt, ids); }
    case SavingSettings(code) =>
      if IdentityAccepted(w.lite, code) { CodeKeepsValid(w, code); }
    case CreatingBatch(b) =>
      if b !in w.lite.batches { CreateKeepsValid(w, b); }
    case SubmittingBatch(b, r) =>
      if SubmitBatch(w.lite, b, r).Some? { SubmitKeepsValid(w, b, r); }
    case Enqueueing(r) =>
      if r.aggregate != BatchAggregate && r.batchId.None? && Enqueue(w.lite, r).Some? { EnqueueKeepsValid(w, r); }
    case Pushing(turns) => PushAllKeepsValid(w, turns);
    case Retrying(i) =>
      if RetryFailed(w.lite, i).Some? { RetryKeepsValid(w, i); }
  }

  lemma {:induction false} RunKeepsValid(w: World, steps: seq<Step>)
    requires Start(w)
    ensures Valid(Run(w, steps))
    decreases |steps|
  {
    hide Valid, Apply;
    if steps == [] {
      StartIsValid(w);
    } else {
      RunKeepsValid(w, steps[..|steps| - 1]);
      StepKeepsValid(Run(w, steps[..|steps| - 1]), steps[|steps| - 1]);
    }
  }
}
