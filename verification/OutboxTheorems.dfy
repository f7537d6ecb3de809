/**
 What follows for the outbox in every reachable state: exactly-once delivery in order, the
 reconnect check, the batches' states, the baseline, and the franchise code.
 */
module OutboxTheorems {
  import opened Options
  import EnvText
  import opened Text
  import opened CanonicalJson
  import opened EventEnvelope
  import opened BaselinePacking
  import opened Outbox
  import opened OutboxRuns

  // ----- Delivery -----

  function Entries(events: seq<Event>): seq<Entry> {
    if events == [] then [] else Entries(events[..|events| - 1]) + [EntryOf(events[|events| - 1])]
  }

  lemma {:induction false} NoneSent(events: seq<Event>)
    requires forall e <- events :: e.status != Sent
    ensures CountSent(events) == 0
  {
    if events != [] {
      assert events[0] in events && forall e <- events[1..] :: e in events;
      NoneSent(events[1..]);
    }
  }

  lemma {:induction false} SentCountIsHead(events: seq<Event>)
    requires Shaped(events)
    ensures CountSent(events) == Head(events)
  {
    if events != [] && events[0].status == Sent {
      assert Shaped(events[1..]);
      SentCountIsHead(events[1..]);
    } else {
      forall e <- events
        ensures e.status != Sent
      {
        var i :| 0 <= i < |events| && events[i] == e;
      }
      NoneSent(events);
    }
  }

  lemma {:induction false} EntriesAt(events: seq<Event>)
    ensures |Entries(events)| == |events|
    ensures forall i :: 0 <= i < |events| ==> Entries(events)[i] == EntryOf(events[i])
    decreases |events|
  {
    if events != [] {
      EntriesAt(events[..|events| - 1]);
    }
  }

  /**
   In-order, exactly-once delivery: with `k` events sent, Master's log is the first `k` or
   `k + 1` events as they were frozen, and no event id occurs twice in it.
   */
  lemma ExactlyOnceInOrder(w: World, steps: seq<Step>)
    requires Start(w)
    ensures var w', events, log := Run(w, steps), Run(w, steps).lite.events, Run(w, steps).master.log;
      && CountSent(events) <= |log| <= CountSent(events) + 1
      && |log| <= |events| && log == Entries(events[..|log|])
      && forall i, j :: 0 <= i < j < |log| ==> log[i].eventId != log[j].eventId
  {
    hide Run, Start;
    RunKeepsValid(w, steps);
    var w' := Run(w, steps);
    SentCountIsHead(w'.lite.events);
    EntriesAt(w'.lite.events[..|w'.master.log|]);
  }

  /** What was frozen stays frozen, and what Master has recorded stays recorded. */
  ghost predicate Extends(w: World, w': World) {
    && |w.lite.events| <= |w'.lite.events|
    && (forall i :: 0 <= i < |w.lite.events| ==> SameFrozen(w.lite.events[i], w'.lite.events[i]))
    && w.master.log <= w'.master.log
  }

  lemma InsertExtends(events: seq<Event>, r: Request)
    requires Insert(events, r).Some?
    ensures events <= Insert(events, r).value
  {
    InsertIsSnoc(events, r);
  }

  lemma StepExtends(w: World, s: Step)
    requires Valid(w)
    ensures Extends(w, Apply(w, s))
  {
    hide Valid, Insert, PushAll, RetryFailed, EnqueueInitial, Initialized, IdentityAccepted, CursorAccepted;
    match s
    case Connecting(code, serials, actor, occurredAt, ids) =>
      if |ids| > |serials| && EnqueueInitial(w.lite.(code := code), serials, actor, occurredAt, ids).Some? {
        EnqueueInitialFresh(w.lite.(code := code), serials, actor, occurredAt, ids);
      }
    case Initializing(serials, actor, occurredAt, ids) =>
      if |ids| > |serials| && EnqueueInitial(w.lite, serials, actor, occurredAt, ids).Some? {
        EnqueueInitialFresh(w.lite, serials, actor, occurredAt, ids);
      }
    case SavingSettings(code) =>
    case CreatingBatch(b) =>
    case SubmittingBatch(b, r) =>
      var request := r.(aggregate := BatchAggregate, batchId := Some(b));
      if Insert(w.lite.events, request).Some? { InsertExtends(w.lite.events, request); }
    case Enqueueing(r) =>
      if Insert(w.lite.events, r).Some? { InsertExtends(w.lite.events, r); }
    case Pushing(turns) => PushAllKeepsValid(w, turns);
    case Retrying(i) =>
      if RetryFailed(w.lite, i).Some? { RetryKeepsValid(w, i); }
  }

  /** Over any continuation of a run, queued bodies never change and Master's log only grows. */
  lemma {:induction false} RunExtends(w: World, steps: seq<Step>, more: seq<Step>)
    requires Start(w)
    ensures Extends(Run(w, steps), Run(w, steps + more))
    decreases |more|
  {
    hide Valid, Apply, Start;
    if more == [] {
      assert steps + more == steps;
    } else {
      var init, last := more[..|more| - 1], more[|more| - 1];
      RunExtends(w, steps, init);
      RunKeepsValid(w, steps + init);
      StepExtends(Run(w, steps + init), last);
      assert (steps + more)[..|steps + more| - 1] == steps + init;
    }
  }

  // ----- Draining the queue -----

  /** The next turn may attempt the oldest unsent event. */
  predicate Ready(events: seq<Event>, turn: Turn) {
    var h := Head(events);
    h < |events| ==> !LeaseHeld(events[h], turn.now, turn.staleAfter) && !NotDue(events[h], turn.now)
  }

  /** An answered request for the claimed event is acknowledged. */
  lemma AnsweredIsAcknowledged(w: World, h: nat, turn: Turn)
    requires Valid(w) && turn.exchange == Answered && h == Head(w.lite.events) < |w.lite.events|
    ensures var (w', more) := Post(w, h, turn);
      more && |w'.lite.events| == |w.lite.events| && Head(w'.lite.events) == h + 1
  {
    hide Tracked, Enrolled, Ingest, ValidAck, Head, Shaped, Numbered, Delivered, FailEvent;
    HeadIsIngested(w, h);
    UpdateShape(w.lite.events, h, w.lite.events[h].(status := Sent, sendingAt := None, nextAttemptAt := None));
  }

  lemma AnsweredTurnDelivers(w: World, turn: Turn)
    requires Valid(w) && turn.exchange == Answered && Ready(w.lite.events, turn)
    requires Head(w.lite.events) < |w.lite.events|
    ensures var (w', more) := PushOne(w, turn);
      more && Valid(w') && |w'.lite.events| == |w.lite.events| && Head(w'.lite.events) == Head(w.lite.events) + 1
  {
    hide Valid, Grows, RetryDelay, Post, Head;
    var h := Head(w.lite.events);
    PushOneKeepsValid(w, turn);
    var w1 := w;
    if w.lite.events[h].status == Sending {
      RecoveredHead(w, h, turn.now);
      w1 := w.(lite := RecoverEvent(w.lite, h, turn.now));
    }
    DigestMatches(w1, h);
    ClaimKeepsValid(w1, h, turn.now);
    AnsweredIsAcknowledged(w1.(lite := ClaimEvent(w1.lite, h, turn.now)), h, turn);
  }

  lemma DigestMatches(w: World, h: nat)
    requires Valid(w) && h < |w.lite.events|
    ensures Sha256(w.lite.events[h].body) == w.lite.events[h].digest
  {
    hide Tracked, Enrolled, Shaped, Delivered;
  }

  lemma PendingIsReady(w: World, turn: Turn)
    requires Valid(w)
         && (Head(w.lite.events) < |w.lite.events| ==> w.lite.events[Head(w.lite.events)].status == Pending)
    ensures Ready(w.lite.events, turn)
  {
  }

  /** Behind a sent head every event is pending, so the next one is ready. */
  lemma NextIsPending(w: World, turn: Turn)
    requires Valid(w) && turn.exchange == Answered && Ready(w.lite.events, turn)
    requires Head(w.lite.events) < |w.lite.events|
    ensures var events := PushOne(w, turn).0.lite.events;
            Head(events) < |events| ==> events[Head(events)].status == Pending
  {
    hide Tracked, Enrolled, Delivered, Numbered, Ingest, RetryDelay;
    var h := Head(w.lite.events);
    AnsweredTurnDelivers(w, turn);
    assert forall i :: h < i < |w.lite.events| ==> PushOne(w, turn).0.lite.events[i] == w.lite.events[i];
  }

  /** While Master answers, one push with a large enough limit delivers everything that is queued. */
  lemma {:induction false} PushDrains(w: World, turns: seq<Turn>)
    requires Valid(w) && (forall t <- turns :: t.exchange == Answered)
    requires |turns| >= |w.lite.events| - Head(w.lite.events)
    requires turns != [] ==> Ready(w.lite.events, turns[0])
    ensures var w' := PushAll(w, turns);
            w'.master.log == Entries(w'.lite.events) && CountSent(w'.lite.events) == |w'.lite.events|
    decreases |turns|
  {
    hide Valid, PushOne, Ready, Extends;
    if Head(w.lite.events) == |w.lite.events| {
      NothingLeft(w, turns);
    } else {
      assert turns[0] in turns && forall t <- turns[1..] :: t in turns;
      AnsweredTurnDelivers(w, turns[0]);
      NextIsPending(w, turns[0]);
      var w' := PushOne(w, turns[0]).0;
      if turns[1..] != [] {
        PendingIsReady(w', turns[1]);
      }
      PushDrains(w', turns[1..]);
    }
  }

  lemma NothingLeft(w: World, turns: seq<Turn>)
    requires Valid(w) && Head(w.lite.events) == |w.lite.events|
    ensures PushAll(w, turns) == w
    ensures w.master.log == Entries(w.lite.events) && CountSent(w.lite.events) == |w.lite.events|
  {
    SentCountIsHead(w.lite.events);
    EntriesAt(w.lite.events);
  }

  // ----- The reconnect check -----

  lemma {:induction false} LastSentIsHead(events: seq<Event>)
    requires Numbered(events) && Shaped(events)
    ensures LastSent(events) == Head(events) && LatestSequence(events) == |events|
    decreases |events|
  {
    if events != [] {
      var init := events[..|events| - 1];
      if events[|events| - 1].status == Sent {
        HeadIs(events, |events|);
      } else {
        HeadIs(init, Head(events));
        LastSentIsHead(init);
      }
    }
  }

  /** In every reachable state, the cursor Master reports passes the bounded check. */
  lemma CursorAlwaysAccepted(w: World, steps: seq<Step>)
    requires Start(w)
    ensures var w' := Run(w, steps);
      CursorAccepted(LastSent(w'.lite.events), LatestSequence(w'.lite.events), |w'.master.log|, |w'.master.log| + 1)
  {
    hide Run, Start;
    RunKeepsValid(w, steps);
    LastSentIsHead(Run(w, steps).lite.events);
  }

  /** No other cursor passes it: one that lies outside what has been sent or queued, or does not fit together. */
  lemma CursorAcceptedExactly(w: World, steps: seq<Step>, last: int, next: int)
    requires Start(w)
    ensures var events := Run(w, steps).lite.events;
      CursorAccepted(LastSent(events), LatestSequence(events), last, next) <==>
      CountSent(events) <= last <= |events| && next == last + 1
  {
    hide Run, Start;
    RunKeepsValid(w, steps);
    LastSentIsHead(Run(w, steps).lite.events);
    SentCountIsHead(Run(w, steps).lite.events);
  }

  // ----- Batches -----

  function EventsOf(events: seq<Event>, b: nat): seq<Event> {
    if events == [] then []
    else (if events[0].batchId == Some(b) then [events[0]] else []) + EventsOf(events[1..], b)
  }

  lemma {:induction false} NoEventsOf(events: seq<Event>, b: nat)
    requires forall e <- events :: !Reports(e, b)
    ensures EventsOf(events, b) == []
  {
    if events != [] {
      assert events[0] in events && forall e <- events[1..] :: e in events;
      NoEventsOf(events[1..], b);
    }
  }

  lemma {:induction false} OneEventOf(events: seq<Event>, b: nat, i: nat)
    requires i < |events| && Reports(events[i], b)
    requires forall j :: 0 <= j < |events| && j != i ==> !Reports(events[j], b)
    ensures EventsOf(events, b) == [events[i]]
  {
    if i == 0 {
      forall e <- events[1..]
        ensures !Reports(e, b)
      {
        var j :| 0 <= j < |events[1..]| && events[1..][j] == e;
        assert e == events[j + 1];
      }
      NoEventsOf(events[1..], b);
    } else {
      assert forall j :: 0 <= j < |events[1..]| && j != i - 1 ==> !Reports(events[1..][j], b);
      OneEventOf(events[1..], b, i - 1);
    }
  }

  /**
   A draft batch has no event. A submitted one has exactly one, and it is SYNCED exactly when
   that event is SENT, PENDING_SYNC exactly when it is PENDING.
   */
  lemma BatchesReportedOnce(w: World, steps: seq<Step>, b: nat)
    requires Start(w)
    requires b in Run(w, steps).lite.batches
    ensures var lite := Run(w, steps).lite; var own := EventsOf(lite.events, b);
      && |own| == (if lite.batches[b] == Draft then 0 else 1)
      && (own != [] ==> (lite.batches[b] == Synced <==> own[0].status == Sent))
      && (own != [] ==> (lite.batches[b] == PendingSync <==> own[0].status == Pending))
  {
    hide Run, Start, Valid, EventsOf;
    RunKeepsValid(w, steps);
    ValidIsTracked(Run(w, steps));
    TrackedOnce(Run(w, steps).lite, b);
  }

  lemma ValidIsTracked(w: World)
    requires Valid(w)
    ensures Tracked(w.lite)
  {
    hide Tracked, Numbered, Shaped, Delivered, Enrolled;
  }

  lemma TrackedOnce(lite: Lite, b: nat)
    requires Tracked(lite) && b in lite.batches
    ensures var own := EventsOf(lite.events, b);
      && |own| == (if lite.batches[b] == Draft then 0 else 1)
      && (own != [] ==> (lite.batches[b] == Synced <==> own[0].status == Sent))
      && (own != [] ==> (lite.batches[b] == PendingSync <==> own[0].status == Pending))
  {
    hide Tracked, EventsOf;
    if lite.batches[b] == Draft {
      NoEventForDraft(lite, b);
      NoEventsOf(lite.events, b);
    } else {
      var i := TheEvent(lite, b);
      OneEventOf(lite.events, b, i);
    }
  }

  lemma TheEvent(lite: Lite, b: nat) returns (i: nat)
    requires Tracked(lite) && b in lite.batches && lite.batches[b] != Draft
    ensures i < |lite.events| && Reports(lite.events[i], b) && Matches(lite.events[i].status, lite.batches[b])
    ensures forall j :: 0 <= j < |lite.events| && j != i ==> !Reports(lite.events[j], b)
  {
    var e :| e in lite.events && Reports(e, b);
    i :| 0 <= i < |lite.events| && lite.events[i] == e;
  }

  // ----- Enrolment -----

  lemma OwnMarkerFound(text: string, prefix: string)
    requires prefix <= text
    ensures LikePrefix(text, prefix)
  {
  }

  /** Once anything is queued, the guard for recording stock changes always holds. */
  lemma EnrolledIsInitialized(lite: Lite)
    requires Enrolled(lite) && lite.events != []
    ensures Initialized(lite)
  {
    hide ReferencePrefix, ConfiguredCode, LikePrefix;
    var n: nat :| EnrolledBy(lite, n);
    var e := lite.events[0];
    OwnMarkerFound(e.aggregateId, ReferencePrefix(ConfiguredCode(lite.code).value));
    assert e in lite.events && IsMarker(e, ConfiguredCode(lite.code).value);
  }

  /** A non-empty outbox starts with a non-empty run of baseline events under one code, and has none later. */
  lemma BaselineComesFirst(w: World, steps: seq<Step>)
    requires Start(w)
    requires Run(w, steps).lite.events != []
    ensures var lite := Run(w, steps).lite;
      Initialized(lite) && exists n: nat :: EnrolledBy(lite, n)
  {
    hide Run, Start, Initialized;
    RunKeepsValid(w, steps);
    EnrolledIsInitialized(Run(w, steps).lite);
  }

  /** From then on no step changes the saved code. */
  lemma CodeIsLocked(w: World, s: Step)
    requires w.lite.events != []
    ensures Apply(w, s).lite.code == w.lite.code
  {
    hide Insert, Initialized, RetryFailed, CursorAccepted, PushOne;
    match s
    case Pushing(turns) => PushAllKeepsCode(w, turns);
    case Retrying(i) =>
      if RetryFailed(w.lite, i).Some? { RetryKeepsCode(w.lite, i); }
    case _ =>
  }

  lemma RetryKeepsCode(lite: Lite, i: nat)
    requires RetryFailed(lite, i).Some?
    ensures RetryFailed(lite, i).value.code == lite.code
  {
  }

  lemma PushOneKeepsCode(w: World, turn: Turn)
    ensures PushOne(w, turn).0.lite.code == w.lite.code
  {
    hide Ingest, RetryDelay, Retryable, ValidAck;
  }

  lemma {:induction false} PushAllKeepsCode(w: World, turns: seq<Turn>)
    ensures PushAll(w, turns).lite.code == w.lite.code
    decreases |turns|
  {
    hide PushOne;
    if turns != [] {
      PushOneKeepsCode(w, turns[0]);
      PushAllKeepsCode(PushOne(w, turns[0]).0, turns[1..]);
    }
  }

  /** The baseline events are exactly those of a packing of the stock, in order of serial id. */
  ghost predicate ListsStock(events: seq<Event>, b: Baseline, serials: seq<SerialRow>, ids: seq<string>)
    requires |ids| > |serials|
  {
    if BaselineItems(serials) == [] then events == [Frozen(EmptyRequest(b, ids[0]), 1)]
    else exists parts: seq<Part> :: ListsParts(events, b, parts, ids) && IsPacking(b, BaselineItems(serials), parts)
  }

  ghost predicate ListsParts(events: seq<Event>, b: Baseline, parts: seq<Part>, ids: seq<string>) {
    && |events| == |parts| <= |ids|
    && forall i :: 0 <= i < |parts| ==> events[i] == Frozen(PartRequest(b, i + 1, parts[i], ids[i]), i + 1)
  }

  lemma BaselineListsStock(lite: Lite, serials: seq<SerialRow>, actor: Json, occurredAt: string, ids: seq<string>)
    requires |ids| > |serials| && EnqueueInitial(lite, serials, actor, occurredAt, ids).Some?
    ensures ConfiguredCode(lite.code).Some?
    ensures ListsStock(EnqueueInitial(lite, serials, actor, occurredAt, ids).value.events,
              Baseline(ConfiguredCode(lite.code).value, actor, occurredAt), serials, ids)
  {
    hide Frozen, Insert, Pack, ConfiguredCode, InsertParts, EmptyRequest, PartRequest, IsPacking, BaselineItems;
    var b := Baseline(ConfiguredCode(lite.code).value, actor, occurredAt);
    var items := BaselineItems(serials);
    if items == [] {
      InsertIsSnoc([], EmptyRequest(b, ids[0]));
    } else {
      var parts := Pack(b, items).value;
      PartsFewerThanItems(b, items);
      BaselineItemsFewer(serials);
      InsertPartsEvents(b, parts, ids, |parts|);
      PackIsPacking(b, items);
      var events := InsertParts(b, parts, ids, |parts|).value;
      assert ListsParts(events, b, parts, ids);
    }
  }

  /** With fresh ids, the baseline is refused only if some item cannot fit in a request by itself. */
  lemma BaselineAccepted(b: Baseline, items: seq<Json>, ids: seq<string>)
    requires Pack(b, items).Some? && |items| <= |ids| && |items| < MAX_SEQUENCE
    requires forall i :: 0 <= i < |ids| ==> IsEventId(ids[i])
    requires forall i, j :: 0 <= i < j < |ids| ==> ids[i] != ids[j]
    ensures |Pack(b, items).value| <= |ids|
    ensures InsertParts(b, Pack(b, items).value, ids, |Pack(b, items).value|).Some?
  {
    hide Pack, InsertParts, IsEventId;
    PartsFewerThanItems(b, items);
    PartsAccepted(b, items, ids, |Pack(b, items).value|);
  }

  lemma {:induction false} PartsAccepted(b: Baseline, items: seq<Json>, ids: seq<string>, n: nat)
    requires Pack(b, items).Some? && |items| < MAX_SEQUENCE
    requires n <= |Pack(b, items).value| <= |items| && n <= |ids|
    requires forall i :: 0 <= i < |ids| ==> IsEventId(ids[i])
    requires forall i, j :: 0 <= i < j < |ids| ==> ids[i] != ids[j]
    ensures InsertParts(b, Pack(b, items).value, ids, n).Some?
  {
    hide Pack, IsEventId, Frozen, Acceptable, PartRequest, PartBody, Insert, HasEventId;
    if n > 0 {
      PartsAccepted(b, items, ids, n - 1);
      var parts := Pack(b, items).value;
      var before := InsertParts(b, parts, ids, n - 1).value;
      InsertPartsEvents(b, parts, ids, n - 1);
      NewId(b, parts, ids, before, n - 1);
      PackedPartsAreAcceptable(b, items, n - 1, ids[n - 1], n);
      PartRequestBody(b, n, parts[n - 1], ids[n - 1]);
      InsertAccepts(before, PartRequest(b, n, parts[n - 1], ids[n - 1]));
    }
  }

  lemma InsertAccepts(events: seq<Event>, r: Request)
    requires !HasEventId(events, r.eventId) && |events| + 1 <= MAX_SEQUENCE
    requires Acceptable(Frozen(r, |events| + 1).body, ItemCount(r.payload))
    ensures Insert(events, r).Some?
  {
    hide Frozen, HasEventId, Acceptable;
  }

  lemma NewId(b: Baseline, parts: seq<Part>, ids: seq<string>, before: seq<Event>, n: nat)
    requires n == |before| < |ids| && n < |parts|
    requires forall i, j :: 0 <= i < j < |ids| ==> ids[i] != ids[j]
    requires forall i :: 0 <= i < n ==> before[i] == Frozen(PartRequest(b, i + 1, parts[i], ids[i]), i + 1)
    ensures !HasEventId(before, PartRequest(b, n + 1, parts[n], ids[n]).eventId)
  {
    hide Frozen;
    forall e <- before
      ensures e.eventId != ids[n]
    {
      var i :| 0 <= i < |before| && before[i] == e;
      FrozenFields(PartRequest(b, i + 1, parts[i], ids[i]), i + 1);
    }
  }

  lemma PartRequestBody(b: Baseline, part: nat, items: seq<Json>, eventId: string)
    ensures var r := PartRequest(b, part, items, eventId);
      Frozen(r, part).body == PartBody(b, part, items, eventId, part) && ItemCount(r.payload) == |items|
  {
    hide FrozenEventJson, Reference, ItemCount, InitialPayload;
    InitialItemCount(Reference(b.code, part), b.actor, items);
  }

  // ----- Continuing from any reachable state -----

  lemma RunOne(w: World, s: Step)
    ensures Run(w, [s]) == Apply(w, s)
  {
    hide Apply;
    assert [s][..0] == [];
  }

  lemma {:induction false} RunAppend(w: World, a: seq<Step>, b: seq<Step>)
    ensures Run(w, a + b) == Run(Run(w, a), b)
    decreases |b|
  {
    hide Apply;
    if b == [] {
      assert a + b == a;
    } else {
      RunAppend(w, a, b[..|b| - 1]);
      assert (a + b)[..|a + b| - 1] == a + b[..|b| - 1];
    }
  }

  lemma {:induction false} RunFromKeepsValid(w: World, steps: seq<Step>)
    requires Valid(w)
    ensures Valid(Run(w, steps))
    decreases |steps|
  {
    hide Valid, Apply;
    if steps != [] {
      RunFromKeepsValid(w, steps[..|steps| - 1]);
      StepKeepsValid(Run(w, steps[..|steps| - 1]), steps[|steps| - 1]);
    }
  }

  lemma ExtendsTwice(u: World, v: World, w: World)
    requires Extends(u, v) && Extends(v, w)
    ensures Extends(u, w)
  {
  }

  lemma ExtendsSelf(w: World)
    ensures Extends(w, w)
  {
  }

  lemma {:induction false} RunFromExtends(w: World, steps: seq<Step>)
    requires Valid(w)
    ensures Extends(w, Run(w, steps))
    decreases |steps|
  {
    hide Valid, Apply, Extends;
    if steps == [] {
      ExtendsSelf(w);
    } else {
      var init := steps[..|steps| - 1];
      RunFromExtends(w, init);
      RunFromKeepsValid(w, init);
      StepExtends(Run(w, init), steps[|steps| - 1]);
      ExtendsTwice(w, Run(w, init), Run(w, steps));
    }
  }

  /** Steps that may queue the baseline. */
  predicate MayEnrol(s: Step) {
    s.Connecting? || s.Initializing?
  }

  /** What a step may add to the queue: the aggregate of an event it queues. */
  predicate MayQueue(s: Step, aggregate: Aggregate) {
    match s
    case Connecting(_, _, _, _, _) => aggregate == InitialInventory
    case Initializing(_, _, _, _) => aggregate == InitialInventory
    case SubmittingBatch(_, _) => aggregate == BatchAggregate
    case Enqueueing(r) => aggregate == r.aggregate && aggregate != InitialInventory
    case _ => false
  }

  ghost predicate AddsOnly(w: World, s: Step) {
    var events := Apply(w, s).lite.events;
    |w.lite.events| <= |events| && forall i :: |w.lite.events| <= i < |events| ==> MayQueue(s, events[i].aggregate)
  }

  lemma InsertedAggregate(events: seq<Event>, r: Request)
    requires Insert(events, r).Some?
    ensures var more := Insert(events, r).value;
      |more| == |events| + 1 && more[|events|].aggregate == r.aggregate && more[|events|].aggregateId == r.aggregateId
  {
    hide FrozenEventJson;
    InsertIsSnoc(events, r);
  }

  lemma FreshAggregates(lite: Lite, serials: seq<SerialRow>, actor: Json, occurredAt: string, ids: seq<string>)
    requires |ids| > |serials| && EnqueueInitial(lite, serials, actor, occurredAt, ids).Some?
    ensures lite.events == []
    ensures forall e <- EnqueueInitial(lite, serials, actor, occurredAt, ids).value.events ::
              e.aggregate == InitialInventory
  {
    hide EnqueueInitial;
    EnqueueInitialFresh(lite, serials, actor, occurredAt, ids);
  }

  lemma StepAddsOnly(w: World, s: Step)
    requires Valid(w)
    ensures AddsOnly(w, s)
  {
    hide Valid, Insert, PushAll, RetryFailed, EnqueueInitial, Initialized, IdentityAccepted, CursorAccepted;
    match s
    case Connecting(code, serials, actor, occurredAt, ids) =>
      if |ids| > |serials| && EnqueueInitial(w.lite.(code := code), serials, actor, occurredAt, ids).Some? {
        FreshAggregates(w.lite.(code := code), serials, actor, occurredAt, ids);
      }
    case Initializing(serials, actor, occurredAt, ids) =>
      if |ids| > |serials| && EnqueueInitial(w.lite, serials, actor, occurredAt, ids).Some? {
        FreshAggregates(w.lite, serials, actor, occurredAt, ids);
      }
    case SavingSettings(code) =>
    case CreatingBatch(b) =>
    case SubmittingBatch(b, r) =>
      var request := r.(aggregate := BatchAggregate, batchId := Some(b));
      if Insert(w.lite.events, request).Some? { InsertedAggregate(w.lite.events, request); }
    case Enqueueing(r) =>
      if Insert(w.lite.events, r).Some? { InsertedAggregate(w.lite.events, r); }
    case Pushing(turns) =>
      PushAllKeepsValid(w, turns);
      GrowsSameLength(w, PushAll(w, turns));
    case Retrying(i) =>
      if RetryFailed(w.lite, i).Some? {
        RetryKeepsValid(w, i);
        GrowsSameLength(w, w.(lite := RetryFailed(w.lite, i).value));
      }
  }

  /** Nothing but an enrolment makes the first event. */
  lemma StaysEmpty(w: World, s: Step)
    requires Valid(w) && w.lite.events == [] && !MayEnrol(s)
    ensures Apply(w, s).lite.events == []
  {
    hide Valid, Insert, PushAll, IdentityAccepted, Initialized;
    assert !Initialized(w.lite) by {
      if Initialized(w.lite) {
        InitializedNonEmpty(w.lite);
      }
    }
  }

  lemma {:induction false} RunStaysEmpty(w: World, steps: seq<Step>)
    requires Valid(w) && w.lite.events == [] && forall s <- steps :: !MayEnrol(s)
    ensures Run(w, steps).lite.events == []
    decreases |steps|
  {
    hide Valid, Apply, MayEnrol;
    if steps != [] {
      var init := steps[..|steps| - 1];
      assert steps[|steps| - 1] in steps && forall s <- init :: s in steps;
      RunStaysEmpty(w, init);
      RunFromKeepsValid(w, init);
      StaysEmpty(Run(w, init), steps[|steps| - 1]);
    }
  }

  ghost predicate NoLaterBaseline(events: seq<Event>, n: nat) {
    forall i :: n <= i < |events| ==> events[i].aggregate != InitialInventory
  }

  /** After the first events, no step queues a baseline again. */
  lemma NoSecondBaseline(w: World, s: Step)
    requires Valid(w) && w.lite.events != []
    ensures NoLaterBaseline(Apply(w, s).lite.events, |w.lite.events|)
  {
    hide Valid, Insert, PushAll, RetryFailed, IdentityAccepted, InsertParts, Initialized;
    StepAddsOnly(w, s) by { hide Apply; }
    if MayEnrol(s) {
      LatestNonzero(w);
    }
  }

  lemma LatestNonzero(w: World)
    requires Valid(w) && w.lite.events != []
    ensures LatestSequence(w.lite.events) != 0
  {
  }

  lemma LaterStep(events: seq<Event>, more: seq<Event>, n: nat)
    requires n <= |events| <= |more| && NoLaterBaseline(events, n) && NoLaterBaseline(more, |events|)
    requires forall i :: 0 <= i < |events| ==> SameFrozen(events[i], more[i])
    ensures NoLaterBaseline(more, n)
  {
  }

  lemma {:induction false} RunQueuesNoBaseline(w: World, steps: seq<Step>)
    requires Valid(w) && w.lite.events != []
    ensures NoLaterBaseline(Run(w, steps).lite.events, |w.lite.events|)
    ensures Run(w, steps).lite.code == w.lite.code
    decreases |steps|
  {
    hide Valid, Apply, NoLaterBaseline;
    if steps == [] {
      assert NoLaterBaseline(w.lite.events, |w.lite.events|) by { NothingLater(w.lite.events); }
    } else {
      var init := steps[..|steps| - 1];
      RunQueuesNoBaseline(w, init);
      RunFromKeepsValid(w, init);
      RunFromExtends(w, init);
      var before := Run(w, init);
      NoSecondBaseline(before, steps[|steps| - 1]);
      StepExtends(before, steps[|steps| - 1]);
      LaterStep(before.lite.events, Run(w, steps).lite.events, |w.lite.events|);
      CodeIsLocked(before, steps[|steps| - 1]);
    }
  }

  lemma NothingLater(events: seq<Event>)
    ensures NoLaterBaseline(events, |events|)
  {
  }

  // ----- The franchise code -----

  /** The saved code is in use as it stands. */
  predicate Trimmed(code: string) {
    code != "" && code[|code| - 1] != '-'
  }

  lemma {:induction false} TrimDashesParts(code: string)
    ensures var c := TrimDashesRight(code);
      && c <= code && (c == "" || c[|c| - 1] != '-') && forall i :: |c| <= i < |code| ==> code[i] == '-'
  {
    if code != "" && code[|code| - 1] == '-' {
      TrimDashesParts(code[..|code| - 1]);
    }
  }

  lemma {:induction false} DashOthersKeepsCodes(code: string)
    requires CodeChars(code)
    ensures DashOthers(code) == code
  {
    hide CodeChar;
    if code != "" {
      assert forall c <- code[1..] :: c in code;
      DashOthersKeepsCodes(code[1..]);
    }
  }

  lemma CodeCharIsPlain(c: char)
    requires CodeChar(c)
    ensures FoldCase(c) == c && !EnvText.IsSpace(c)
  {
  }

  /** Of a code that passed validation, normalising only drops trailing dashes. */
  lemma NormalizeCodeOfCode(code: string)
    requires IsCode(code)
    ensures NormalizeCode(code) == TrimDashesRight(code)
  {
    hide CodeChar, IsPlaceholder, FoldCase, EnvText.IsSpace;
    forall i | 0 <= i < |code|
      ensures FoldCase(code[i]) == code[i] && !EnvText.IsSpace(code[i])
    {
      CodeCharIsPlain(code[i]);
    }
    EnvText.StripIdentity(code);
    assert Text.Upper(code) == code;
    DashOthersKeepsCodes(code);
    assert TrimDashesLeft(code) == code;
  }

  /** A letter or digit, then up to 19 letters, digits, underscores or dashes; and none of ten names of nobody. */
  ghost predicate FitsPattern(code: string) {
    && code != "" && |code| <= 20 && ('A' <= code[0] <= 'Z' || '0' <= code[0] <= '9')
    && (forall i :: 0 <= i < |code| ==> 'A' <= code[i] <= 'Z' || '0' <= code[i] <= '9' || code[i] in {'_', '-'})
    && code !in {"CHANGE-ME", "CHANGEME", "DEFAULT", "FRANCHISE", "FRANCHISE-CODE", "LITE", "MASTER", "SETUORA",
                 "YOUR-FRANCHISE", "YOUR-FRANCHISE-CODE"}
  }

  /** Before anything is queued, exactly the codes that fit the pattern can be saved or connected with. */
  lemma FirstCodeAcceptedExactly(lite: Lite, code: string)
    requires lite.events == []
    ensures IdentityAccepted(lite, code) <==> FitsPattern(code)
    ensures SaveSettings(lite, code) == if FitsPattern(code) then lite.(code := code) else lite
  {
    assert forall i :: 0 <= i < |code| ==> code[i] in code;
  }

  /**
   Reconnecting with the saved code is accepted exactly when that code is valid and does not end in
   a dash: the queued baseline carries the code without trailing dashes, and the check looks for the
   code as saved.
   */
  lemma ReconnectAcceptedExactly(lite: Lite)
    requires Enrolled(lite) && lite.events != []
    ensures IdentityAccepted(lite, lite.code) <==> IsCode(lite.code) && Trimmed(lite.code)
  {
    hide IsCode, LikePrefix, NormalizeCode;
    if IsCode(lite.code) {
      var code, c := lite.code, TrimDashesRight(lite.code);
      TrimDashesParts(code);
      NormalizeCodeOfCode(code);
      CodeNotEmpty(code);
      var n: nat :| EnrolledBy(lite, n);
      if Trimmed(code) {
        var e := lite.events[0];
        OwnMarkerFound(e.aggregateId, ReferencePrefix(code));
        assert e in lite.events && IsMarker(e, code);
      } else {
        forall e <- lite.events
          ensures !IsMarker(e, code)
        {
          var i :| 0 <= i < |lite.events| && lite.events[i] == e;
          if e.aggregate == InitialInventory {
            DashIsNoColon(c, code, e.aggregateId);
          }
        }
      }
    }
  }

  lemma CodeNotEmpty(code: string)
    requires IsCode(code)
    ensures code != ""
  {
  }

  lemma DashIsNoColon(c: string, code: string, text: string)
    requires c < code && code[|c|] == '-' && ReferencePrefix(c) <= text
    ensures !LikePrefix(text, ReferencePrefix(code))
  {
    assert text[|c|] == ReferencePrefix(c)[|c|] == ':';
    assert ReferencePrefix(code)[|c|] == '-';
  }

  predicate CodeChars(code: string) {
    forall c <- code :: CodeChar(c)
  }

  /** Whichever marker of code `c` is queued, a part or the empty one, when does the guard for code `d` accept it? */
  lemma MarkerMatches(c: string, rest: string, d: string)
    requires CodeChars(c) && CodeChars(d) && '_' !in d
    ensures LikePrefix(ReferencePrefix(c) + rest, ReferencePrefix(d)) <==> c == d
  {
    var text, prefix := ReferencePrefix(c) + rest, ReferencePrefix(d);
    if c == d {
      OwnMarkerFound(text, prefix);
    } else {
      assert text[|c|] == ':' && prefix[|d|] == ':' && text[..|c|] == c && prefix[..|d|] == d;
      assert |d| < |c| ==> CodeChar(c[|d|]);
      assert |c| < |d| ==> CodeChar(d[|c|]);
      if |c| == |d| {
        var i :| 0 <= i < |d| && c[i] != d[i];
        assert CodeChar(c[i]) && CodeChar(d[i]);
        assert text[i] == c[i] && prefix[i] == d[i];
      }
    }
  }

  /** The guard for `d` takes every marker for one of its own. */
  ghost predicate RecognisesOnlyItself(d: string) {
    forall c: string, rest: string ::
      CodeChars(c) && LikePrefix(ReferencePrefix(c) + rest, ReferencePrefix(d)) ==> c == d
  }

  lemma WildcardMatches(d: string, i: nat)
    requires CodeChars(d) && i < |d| && d[i] == '_'
    ensures !RecognisesOnlyItself(d)
  {
    var c := d[i := 'X'];
    assert CodeChars(c) && c[i] != d[i];
    var text, prefix := ReferencePrefix(c) + "EMPTY", ReferencePrefix(d);
    forall k | 0 <= k < |prefix|
      ensures prefix[k] == '_' || FoldCase(prefix[k]) == FoldCase(text[k])
    {
      if k < |d| {
        assert prefix[k] == d[k] && text[k] == c[k];
      } else {
        assert prefix[k] == ":INITIAL-INVENTORY:"[k - |d|] == text[k];
      }
    }
    assert LikePrefix(text, prefix);
  }

  /**
   The guard is meant to stop a node whose franchise code was changed behind its back. It
   does so exactly for codes without an underscore, which SQL's LIKE treats as a wildcard.
   */
  lemma GuardExactlyWithoutUnderscore(d: string)
    requires CodeChars(d)
    ensures RecognisesOnlyItself(d) <==> '_' !in d
  {
    hide LikePrefix, CodeChars;
    if '_' in d {
      var i :| 0 <= i < |d| && d[i] == '_';
      WildcardMatches(d, i);
    } else {
      forall c: string, rest: string | CodeChars(c) && LikePrefix(ReferencePrefix(c) + rest, ReferencePrefix(d))
        ensures c == d
      {
        MarkerMatches(c, rest, d);
      }
    }
  }
}
