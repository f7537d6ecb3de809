/**
 The Lite node itself: the outbox and batch rows as mutable state, and the transactions of
 app/services/master_sync.py and app/routers/lite_sync.py that change them in place. Each method
 is proved to compute what `Outbox` says its step computes, so the theorems about runs apply.
 */
module LiteNode {
  import opened Options
  import opened CanonicalJson
  import opened EventEnvelope
  import opened BaselinePacking
  import opened Outbox

  lemma {:induction false} CountWithUpdate(events: seq<Event>, h: nat, e: Event)
    requires h < |events| && events[h].status != Sent
    ensures CountSent(events[h := e]) == CountSent(events) + if e.status == Sent then 1 else 0
  {
    var rest, more := events[1..], events[h := e];
    if h > 0 {
      assert more[1..] == rest[h - 1 := e];
      CountWithUpdate(rest, h - 1, e);
    } else {
      assert more[1..] == rest;
    }
  }

  lemma CountAfterUpdate(events: seq<Event>, h: nat)
    requires h < |events| && events[h].status != Sent
    ensures forall e :: CountSent(events[h := e]) == CountSent(events) + if e.status == Sent then 1 else 0
  {
    forall e
      ensures CountSent(events[h := e]) == CountSent(events) + if e.status == Sent then 1 else 0
    {
      CountWithUpdate(events, h, e);
    }
  }

  class Node {
    var code: string
    var events: seq<Event>
    var batches: map<nat, BatchStatus>

    function State(): Lite
      reads this
    {
      Lite(code, events, batches)
    }

    constructor (code: string)
      ensures State() == Lite(code, [], map[])
    {
      this.code := code;
      events := [];
      batches := map[];
    }

    /** `enqueue_outbox_event`: the row is inserted first; a refusal rolls the insert back. */
    method EnqueueOutboxEvent(r: Request, initial: bool) returns (ok: bool)
      modifies this
      ensures !initial ==> State() == Enqueue(old(State()), r).GetOr(old(State()))
      ensures !initial ==> ok == Enqueue(old(State()), r).Some?
      ensures initial && r.aggregate == InitialInventory && ConfiguredCode(code).Some? ==>
        && ok == Insert(old(events), r).Some?
        && State() == old(State()).(events := Insert(old(events), r).GetOr(old(events)))
      ensures initial && !(r.aggregate == InitialInventory && ConfiguredCode(code).Some?) ==>
        !ok && State() == old(State())
    {
      hide FrozenEventJson, ConfiguredCode, InitialInventoryQueued, Size;
      if initial {
        if r.aggregate != InitialInventory || ConfiguredCode(code).None? {
          return false;
        }
      } else if r.aggregate == InitialInventory || !Initialized(State()) {
        return false;
      }
      var saved := events;
      var sequence := |events| + 1;
      if HasEventId(events, r.eventId) || sequence > MAX_SEQUENCE {
        return false;
      }
      var row := Event(sequence, r.eventId, r.aggregate, r.aggregateId, r.batchId, "", Sha256(""), Pending, 0, None,
          None);
      events := events + [row];
      var body := FrozenEventJson(r.payload, r.eventId, sequence, r.eventType, r.aggregateId, r.occurredAt,
        EVENT_SCHEMA_VERSION);
      if !Acceptable(body, ItemCount(r.payload)) {
        events := saved;
        return false;
      }
      events := events[sequence - 1 := row.(body := body, digest := Sha256(body))];
      assert events == saved + [Frozen(r, sequence)];
      return true;
    }

    /** `enqueue_initial_inventory_snapshot`: every part is queued, or nothing is. */
    method EnqueueInitialInventorySnapshot(serials: seq<SerialRow>, actor: Json, occurredAt: string, ids: seq<string>)
      returns (ok: bool)
      requires |ids| > |serials|
      modifies this
      ensures ok == EnqueueInitial(old(State()), serials, actor, occurredAt, ids).Some?
      ensures State() == EnqueueInitial(old(State()), serials, actor, occurredAt, ids).GetOr(old(State()))
    {
      hide Pack, Insert, PartRequest, EmptyRequest, ConfiguredCode;
      if events != [] {
        return false;
      }
      var configured := ConfiguredCode(code);
      if configured.None? {
        return false;
      }
      var b := Baseline(configured.value, actor, occurredAt);
      var items := BaselineItems(serials);
      BaselineItemsFewer(serials);
      if items == [] {
        InitialRequest(b, 0, [], ids[0]);
        ok := EnqueueOutboxEvent(EmptyRequest(b, ids[0]), true);
        return;
      }
      var parts := Partition(b, items);
      if parts.None? {
        return false;
      }
      PartsFewerThanItems(b, items);
      for n := 0 to |parts.value|
        invariant unchanged(this`code) && unchanged(this`batches)
        invariant InsertParts(b, parts.value, ids, n) == Some(events)
      {
        InitialRequest(b, n + 1, parts.value[n], ids[n]);
        ok := EnqueueOutboxEvent(PartRequest(b, n + 1, parts.value[n], ids[n]), true);
        if !ok {
          InsertPartsFails(b, parts.value, ids, n + 1, |parts.value|);
          events := [];
          return false;
        }
      }
      return true;
    }

    /** The Lite side of `submit_batch`: the batch changes state only together with its event. */
    method SubmitDraft(batchId: nat, r: Request) returns (ok: bool)
      modifies this
      ensures ok == SubmitBatch(old(State()), batchId, r).Some?
      ensures State() == SubmitBatch(old(State()), batchId, r).GetOr(old(State()))
    {
      hide Insert, Initialized;
      if batchId !in batches || batches[batchId] != Draft {
        return false;
      }
      var saved := batches;
      ok := EnqueueOutboxEvent(r.(aggregate := BatchAggregate, batchId := Some(batchId)), false);
      batches := if ok then batches[batchId := PendingSync] else saved;
    }

    /** `connect_to_master`, against the cursor that Master reports for this node. */
    method ConnectToMaster(newCode: string, master: Master, serials: seq<SerialRow>, actor: Json,
                           occurredAt: string, ids: seq<string>)
      requires |ids| > |serials|
      modifies this
      ensures World(State(), master)
           == Connect(World(old(State()), master), newCode, serials, actor, occurredAt, ids)
    {
      hide EnqueueInitial, IdentityAccepted, LastSent;
      var cursor := |master.log|;
      if IdentityAccepted(State(), newCode)
         && CursorAccepted(LastSent(events), LatestSequence(events), cursor, cursor + 1) {
        var latest := LatestSequence(events);
        code := newCode;
        if latest == 0 {
          var ok := EnqueueInitialInventorySnapshot(serials, actor, occurredAt, ids);
        }
      }
    }

    /** `_fail_outbox_event`. */
    method FailOutboxEvent(h: nat, now: int, retryable: bool)
      requires h < |events|
      modifies this
      ensures State() == FailEvent(old(State()), h, now, retryable)
    {
      var e := events[h];
      events := events[h := e.(status := Failed, sendingAt := None,
        nextAttemptAt := if retryable then Some(now + RetryDelay(e.attempts)) else None)];
      if e.aggregate == BatchAggregate && e.batchId.Some? && e.batchId.value in batches {
        batches := batches[e.batchId.value := SyncFailed];
      }
    }

    /** `retry_failed_event`. */
    method RetryFailedEvent(i: nat) returns (ok: bool)
      modifies this
      ensures ok == RetryFailed(old(State()), i).Some?
      ensures State() == RetryFailed(old(State()), i).GetOr(old(State()))
      ensures ok ==>
        && i < |old(events)| == |events| && events[i].status == Pending
        && EntryOf(events[i]) == EntryOf(old(events)[i]) && events == old(events)[i := events[i]]
    {
      if i >= |events| || events[i].status != Failed || Sha256(events[i].body) != events[i].digest {
        return false;
      }
      var e := events[i];
      events := events[i := e.(status := Pending, nextAttemptAt := None, sendingAt := None)];
      if e.batchId.Some? && e.batchId.value in batches {
        batches := batches[e.batchId.value := PendingSync];
      }
      return true;
    }

    /** The part of one turn before the request: recover a stale claim, then claim the event. */
    method Claim(turn: Turn) returns (h: nat, claimed: bool)
      modifies this
      ensures claimed ==> h == Head(old(events)) < |events| == |old(events)| && events[h].status == Sending
      ensures CountSent(events) == CountSent(old(events))
      ensures forall master ::
        PushOne(World(old(State()), master), turn)
        == if claimed then Post(World(State(), master), h, turn) else (World(State(), master), false)
    {
      hide RetryDelay, Ingest, Post, CountSent, Head;
      h, claimed := Head(events), false;
      if h == |events| {
        return;
      }
      ghost var was := events;
      CountAfterUpdate(was, h);
      if events[h].status == Sending {
        if events[h].sendingAt.Some? && events[h].sendingAt.value + turn.staleAfter > turn.now {
          return;
        }
        events := events[h := events[h].(status := Failed, nextAttemptAt := Some(turn.now), sendingAt := None)];
      }
      if events[h].status == Failed {
        if events[h].nextAttemptAt.None? || events[h].nextAttemptAt.value > turn.now {
          return;
        }
      }
      if turn.exchange == CrashBeforeClaim {
        return;
      }
      if Sha256(events[h].body) != events[h].digest {
        FailOutboxEvent(h, turn.now, false);
        assert events == was[h := events[h]];
        return;
      }
      var e := events[h].(status := Sending, attempts := events[h].attempts + 1, sendingAt := Some(turn.now),
                          nextAttemptAt := None);
      events := events[h := e];
      assert events == was[h := e];
      batches := MarkBatch(batches, e, Syncing);
      claimed := true;
    }

    /** The request and what becomes of its reply. */
    method Deliver(h: nat, turn: Turn, master: Master) returns (master': Master, sent: bool)
      requires h < |events| && events[h].status != Sent
      modifies this
      ensures CountSent(events) == CountSent(old(events)) + if sent then 1 else 0
      ensures (World(State(), master'), sent) == Post(World(old(State()), master), h, turn)
      ensures |events| == |old(events)|
    {
      hide RetryDelay, CountSent;
      CountAfterUpdate(events, h);
      sent := false;
      var e := events[h];
      var ingested := Ingest(master, EntryOf(e));
      match turn.exchange {
        case Answered =>
          master' := ingested.0;
          if ValidAck(ingested.1, e) {
            events := events[h := e.(status := Sent, sendingAt := None, nextAttemptAt := None)];
            batches := MarkBatch(batches, events[h], Synced);
            sent := true;
          } else {
            FailOutboxEvent(h, turn.now, false);
          }
        case ConnectionError(d) =>
          master' := if d then ingested.0 else master;
          FailOutboxEvent(h, turn.now, true);
        case GarbledReply(d) =>
          master' := if d then ingested.0 else master;
          FailOutboxEvent(h, turn.now, true);
        case UnexpectedError(d) =>
          master' := if d then ingested.0 else master;
          FailOutboxEvent(h, turn.now, false);
        case HttpError(status, concurrent, d) =>
          master' := if d then ingested.0 else master;
          FailOutboxEvent(h, turn.now, Retryable(status, concurrent));
        case CrashBeforeClaim =>
          master' := master;
        case CrashAfterClaim(d) =>
          master' := if d then ingested.0 else master;
      }
    }

    /** `push_pending_events`: strictly in sequence, stopping at the first blocked event. */
    method PushPendingEvents(turns: seq<Turn>, master: Master) returns (sentCount: nat, master': Master)
      modifies this
      ensures World(State(), master') == Push(World(old(State()), master), turns)
      ensures sentCount <= |turns| && CountSent(events) == CountSent(old(events)) + sentCount
    {
      hide Initialized, PushOne, CountSent;
      sentCount, master' := 0, master;
      if !Initialized(State()) {
        return;
      }
      while sentCount < |turns|
        invariant sentCount <= |turns| && CountSent(events) == CountSent(old(events)) + sentCount
        invariant PushAll(World(State(), master'), turns[sentCount..]) == PushAll(World(old(State()), master), turns)
      {
        ghost var before := World(State(), master');
        var turn := turns[sentCount];
        assert turns[sentCount..][0] == turn && turns[sentCount..][1..] == turns[sentCount + 1..];
        var h, claimed := Claim(turn);
        var sent := false;
        if claimed {
          master', sent := Deliver(h, turn, master');
        }
        assert PushOne(before, turn) == (World(State(), master'), sent);
        if !sent {
          return;
        }
        sentCount := sentCount + 1;
      }
    }
  }

  lemma InitialRequest(b: Baseline, part: nat, items: seq<Json>, eventId: string)
    ensures EmptyRequest(b, eventId).aggregate == PartRequest(b, part, items, eventId).aggregate == InitialInventory
  {
  }

  lemma {:induction false} InsertPartsFails(b: Baseline, parts: seq<Part>, ids: seq<string>, m: nat, n: nat)
    requires m <= n <= |parts| && n <= |ids| && InsertParts(b, parts, ids, m).None?
    ensures InsertParts(b, parts, ids, n).None?
    decreases n
  {
    hide Insert, PartRequest;
    if m < n {
      InsertPartsFails(b, parts, ids, m, n - 1);
    }
  }
}
