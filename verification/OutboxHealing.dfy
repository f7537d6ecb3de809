/**
 Which failures of a delivery pass by themselves (app/services/master_sync.py:721-728 and 863-1070): after
 which the event is sent again, and when, and after which everything waits for an administrator.
 */
module OutboxHealing {
  import opened Options
  import opened Outbox
  import opened OutboxRuns
  import opened OutboxTheorems

  /** An event the push loop may claim at this time. */
  predicate Due(e: Event, now: int, staleAfter: nat) {
    match e.status
    case Pending => true
    case Failed => e.nextAttemptAt.Some? && e.nextAttemptAt.value <= now
    case Sending => e.sendingAt.None? || e.sendingAt.value + staleAfter <= now
    case Sent => false
  }

  /** Lost requests and replies, and answers that say "not now". */
  predicate PassesByItself(x: Exchange) {
    x.ConnectionError? || x.GarbledReply?
    || (x.HttpError?
        && (x.status in {401, 403, 408, 425, 429} || (x.status == 409 && x.concurrent) || x.status >= 500))
  }

  /** Any other answer, and errors that a second attempt would meet again. */
  predicate NeedsAdministrator(x: Exchange) {
    x.UnexpectedError? || (x.HttpError? && !PassesByItself(x))
  }

  /** Seconds until the next attempt, after the first, second, ... one; the last entry holds from then on. */
  const WAITS: seq<nat> := [2, 4, 8, 16, 32, 64, 128, 256, 512, 1024, 2048]

  function WaitAfter(attempts: nat): (seconds: nat)
    requires attempts >= 1
    ensures 2 <= seconds <= 2048
  {
    if attempts <= 11 then WAITS[attempts - 1] else 2048
  }

  lemma DelayIsWait(attempts: nat)
    requires attempts >= 1
    ensures RetryDelay(attempts) == WaitAfter(attempts)
  {
    Doubling();
  }

  lemma Doubling()
    ensures forall n: nat :: 1 <= n <= 11 ==> Power2(n) == WAITS[n - 1]
  {
    assert Power2(1) == 2 && Power2(2) == 4 && Power2(3) == 8;
    assert Power2(4) == 16 && Power2(5) == 32 && Power2(6) == 64;
    assert Power2(7) == 128 && Power2(8) == 256 && Power2(9) == 512;
    assert Power2(10) == 1024 && Power2(11) == 2048;
  }

  // ----- One turn -----

  lemma DueIsReady(events: seq<Event>, turn: Turn)
    requires Head(events) < |events|
    ensures Ready(events, turn) <==> Due(events[Head(events)], turn.now, turn.staleAfter)
  {
    hide Head;
  }

  /** Nothing is claimed, or changed, before the oldest unsent event is due. */
  lemma NothingBeforeDue(w: World, turn: Turn)
    requires Head(w.lite.events) < |w.lite.events|
    requires !Due(w.lite.events[Head(w.lite.events)], turn.now, turn.staleAfter)
    ensures Push(w, [turn]) == w
  {
    hide Initialized, Head, Post, ClaimEvent, FailEvent;
    OneTurn(w, turn);
  }

  lemma OneTurn(w: World, turn: Turn)
    ensures Push(w, [turn]) == if Initialized(w.lite) then PushOne(w, turn).0 else w
  {
    hide Initialized, PushOne;
    var rest := [turn][1..];
    assert rest == [];
    assert PushAll(PushOne(w, turn).0, rest) == PushOne(w, turn).0;
  }

  /** What the claim makes of the event. */
  function Claimed(e: Event, now: int): Event {
    e.(status := Sending, attempts := e.attempts + 1, sendingAt := Some(now), nextAttemptAt := None)
  }

  /** A due event is claimed, and the request is made for it. */
  lemma DueIsPosted(w: World, turn: Turn) returns (claimed: World)
    requires Valid(w) && Head(w.lite.events) < |w.lite.events| && turn.exchange != CrashBeforeClaim
    requires Due(w.lite.events[Head(w.lite.events)], turn.now, turn.staleAfter)
    ensures var h := Head(w.lite.events);
            Valid(claimed) && claimed.master == w.master && claimed.lite.code == w.lite.code
            && Head(claimed.lite.events) == h < |claimed.lite.events|
            && claimed.lite.events == w.lite.events[h := Claimed(w.lite.events[h], turn.now)]
            && PushOne(w, turn) == Post(claimed, h, turn)
  {
    hide Valid, Grows, Post, Head, MarkBatch, FailEvent;
    var h := Head(w.lite.events);
    var w1 := w;
    if w.lite.events[h].status == Sending {
      RecoveredHead(w, h, turn.now);
      w1 := w.(lite := RecoverEvent(w.lite, h, turn.now));
    }
    DigestMatches(w1, h);
    ClaimKeepsValid(w1, h, turn.now);
    claimed := w1.(lite := ClaimEvent(w1.lite, h, turn.now));
  }

  /** After a failure that passes by itself the event is failed, with a next attempt. */
  lemma PostFails(w: World, h: nat, turn: Turn)
    requires h < |w.lite.events|
    requires PassesByItself(turn.exchange) || NeedsAdministrator(turn.exchange)
    ensures var delay := RetryDelay(w.lite.events[h].attempts);
            var next := if PassesByItself(turn.exchange) then Some(turn.now + delay) else None;
            var (w', more) := Post(w, h, turn);
            !more && w'.lite.code == w.lite.code
            && w'.lite.events
               == w.lite.events[h := w.lite.events[h].(status := Failed, sendingAt := None, nextAttemptAt := next)]
            && w'.lite.batches == MarkBatch(w.lite.batches, w'.lite.events[h], SyncFailed)
  {
    hide Ingest, MarkBatch, RetryDelay;
  }

  lemma SameMarkers(events: seq<Event>, other: seq<Event>, code: string)
    requires |events| == |other|
    requires forall i :: 0 <= i < |events| ==>
               other[i].aggregate == events[i].aggregate && other[i].aggregateId == events[i].aggregateId
    ensures InitialInventoryQueued(events, code) <==> InitialInventoryQueued(other, code)
  {
    hide LikePrefix;
    assert forall i :: 0 <= i < |events| ==> (IsMarker(events[i], code) <==> IsMarker(other[i], code));
    assert InitialInventoryQueued(events, code) <==> exists i :: 0 <= i < |events| && IsMarker(events[i], code);
    assert InitialInventoryQueued(other, code) <==> exists i :: 0 <= i < |other| && IsMarker(other[i], code);
  }

  lemma StillInitialized(w: World, w': World)
    requires Initialized(w.lite) && w'.lite.code == w.lite.code && |w'.lite.events| == |w.lite.events|
    requires forall i :: 0 <= i < |w.lite.events| ==> SameFrozen(w.lite.events[i], w'.lite.events[i])
    ensures Initialized(w'.lite)
  {
    hide ConfiguredCode, InitialInventoryQueued;
    SameMarkers(w.lite.events, w'.lite.events, ConfiguredCode(w.lite.code).value);
  }

  /** The oldest unsent event `h`, and the batch it reports, have failed; its next attempt is at this time, or never. */
  ghost predicate Failing(w: World, h: nat, attempts: nat, next: Option<int>) {
    Valid(w) && Initialized(w.lite) && h == Head(w.lite.events) < |w.lite.events|
    && w.lite.events[h].status == Failed && w.lite.events[h].attempts == attempts
    && w.lite.events[h].nextAttemptAt == next
    && BatchIs(w.lite, h, SyncFailed)
  }

  ghost predicate BatchIs(lite: Lite, h: nat, status: BatchStatus)
    requires h < |lite.events|
  {
    forall b :: Reports(lite.events[h], b) ==> b in lite.batches && lite.batches[b] == status
  }

  lemma BatchIsMarked(w: World, h: nat, e: Event, batches: map<nat, BatchStatus>, status: BatchStatus)
    requires Valid(w) && h < |w.lite.events| && e == w.lite.events[h]
    requires w.lite.batches == MarkBatch(batches, e, status) && w.lite.batches.Keys == batches.Keys
    ensures BatchIs(w.lite, h, status)
  {
    hide Numbered, Shaped, Delivered, Enrolled;
    assert w.lite.events[h] in w.lite.events;
  }

  lemma MarkKeepsKeys(batches: map<nat, BatchStatus>, e: Event, status: BatchStatus)
    ensures MarkBatch(batches, e, status).Keys == batches.Keys
  {
  }

  /**
   A turn that claims the oldest unsent event and ends in one of these failures leaves it failed: with a
   next attempt, 2 seconds later at first and twice as long each time up to 2048, if the failure
   passes by itself, and with none otherwise; the batch that it reports has failed too.
   */
  lemma FailureIsScheduled(w: World, turn: Turn)
    requires Valid(w) && Initialized(w.lite) && Head(w.lite.events) < |w.lite.events|
    requires Due(w.lite.events[Head(w.lite.events)], turn.now, turn.staleAfter)
    requires PassesByItself(turn.exchange) || NeedsAdministrator(turn.exchange)
    ensures var h := Head(w.lite.events);
            var attempts := w.lite.events[h].attempts + 1;
            Failing(Push(w, [turn]), h, attempts,
              if PassesByItself(turn.exchange) then Some(turn.now + WaitAfter(attempts)) else None)
            && |Push(w, [turn]).lite.events| == |w.lite.events|
  {
    hide Valid, Initialized, Head, PassesByItself, NeedsAdministrator, Due, PushOne, Post, RetryDelay, WaitAfter, Grows,
         MarkBatch, BatchIs;
    var h := Head(w.lite.events);
    FailureIsNoCrash(turn.exchange);
    var claimed := DueIsPosted(w, turn);
    PostFails(claimed, h, turn);
    DelayIsWait(claimed.lite.events[h].attempts);
    OneTurn(w, turn);
    PostKeepsValid(claimed, h, turn);
    var after := Post(claimed, h, turn).0;
    MarkKeepsKeys(claimed.lite.batches, after.lite.events[h], SyncFailed);
    BatchIsMarked(after, h, after.lite.events[h], claimed.lite.batches, SyncFailed);
    StillInitialized(w, after);
    FailedIsHead(w.lite.events, after.lite.events[h]);
  }

  lemma FailureIsNoCrash(x: Exchange)
    requires PassesByItself(x) || NeedsAdministrator(x)
    ensures x != CrashBeforeClaim && !x.CrashAfterClaim? && x != Answered
  {
  }

  lemma FailedIsHead(events: seq<Event>, f: Event)
    requires Head(events) < |events| && f.status != Sent
    ensures Head(events[Head(events) := f]) == Head(events)
  {
    HeadIs(events[Head(events) := f], Head(events));
  }

  // ----- Healing -----

  /** Everything queued has been sent, and Master has it. */
  ghost predicate Drained(w: World) {
    w.master.log == Entries(w.lite.events) && CountSent(w.lite.events) == |w.lite.events|
  }

  /** Turns that are answered, from a time on, and enough of them for what is queued from `h` on. */
  ghost predicate AnswersFrom(w: World, h: nat, turns: seq<Turn>, start: int) {
    turns != [] && (forall t <- turns :: t.exchange == Answered) && turns[0].now >= start
    && |turns| >= |w.lite.events| - h
  }

  lemma DrainsWhenDue(w: World, turns: seq<Turn>)
    requires Valid(w) && Initialized(w.lite) && Head(w.lite.events) < |w.lite.events|
    requires turns != [] && AnswersFrom(w, Head(w.lite.events), turns, turns[0].now)
    requires Due(w.lite.events[Head(w.lite.events)], turns[0].now, turns[0].staleAfter)
    ensures Drained(Push(w, turns))
  {
    hide Valid, Initialized, Head, PushAll, Due, Ready, Entries, CountSent;
    DueIsReady(w.lite.events, turns[0]);
    PushDrains(w, turns);
  }

  /**
   A failure that passes by itself heals by itself: once the wait is over, a push that Master answers
   delivers the whole queue, with no administrator's retry; and the wait is never longer than an hour.
   */
  lemma LossesHeal(w: World, turn: Turn, turns: seq<Turn>)
    requires Valid(w) && Initialized(w.lite) && Head(w.lite.events) < |w.lite.events|
    requires Due(w.lite.events[Head(w.lite.events)], turn.now, turn.staleAfter) && PassesByItself(turn.exchange)
    ensures var h := Head(w.lite.events);
            var after := Push(w, [turn]);
            h < |after.lite.events|
            && var next := after.lite.events[h].nextAttemptAt;
               next.Some? && turn.now < next.value <= turn.now + 3600
               && (AnswersFrom(after, h, turns, next.value) ==> Drained(Push(after, turns)))
  {
    hide Valid, Initialized, Head, PassesByItself, Push, Drained, Grows;
    FailureIsScheduled(w, turn);
    var h, after := Head(w.lite.events), Push(w, [turn]);
    var next := after.lite.events[h].nextAttemptAt;
    if AnswersFrom(after, h, turns, next.value) {
      assert Due(after.lite.events[h], turns[0].now, turns[0].staleAfter);
      DrainsWhenDue(after, turns);
    }
  }

  /** A process that stops after the claim heals too: once the lease is over, the event is sent again. */
  lemma InterruptionsHeal(w: World, turn: Turn, turns: seq<Turn>)
    requires Valid(w) && Initialized(w.lite) && Head(w.lite.events) < |w.lite.events|
    requires Due(w.lite.events[Head(w.lite.events)], turn.now, turn.staleAfter) && turn.exchange.CrashAfterClaim?
    ensures var h, after := Head(w.lite.events), Push(w, [turn]);
            turns != [] && AnswersFrom(after, h, turns, turn.now + turns[0].staleAfter) ==> Drained(Push(after, turns))
  {
    hide Valid, Initialized, Head, Drained, PushOne, PushAll, Grows, Ingest;
    var h := Head(w.lite.events);
    var claimed := DueIsPosted(w, turn);
    OneTurn(w, turn);
    PostKeepsValid(claimed, h, turn);
    var after := Push(w, [turn]);
    assert after.lite == claimed.lite && Valid(after) by { hide Push; OneTurn(w, turn); }
    StillInitialized(w, after);
    if turns != [] && AnswersFrom(after, h, turns, turn.now + turns[0].staleAfter) {
      assert Due(after.lite.events[h], turns[0].now, turns[0].staleAfter);
      DrainsWhenDue(after, turns);
    }
  }

  // ----- Waiting for an administrator -----

  /** The oldest unsent event has failed, and has no next attempt. */
  ghost predicate Refused(w: World, h: nat) {
    Valid(w) && h == Head(w.lite.events) < |w.lite.events|
    && w.lite.events[h].status == Failed && w.lite.events[h].nextAttemptAt == None
  }

  lemma RefusedIsNotPushed(w: World, h: nat, turns: seq<Turn>)
    requires Refused(w, h)
    ensures Push(w, turns) == w
  {
    hide Valid, Initialized, Head, Post, FailEvent, ClaimEvent;
  }

  /** Only the event that failed can be retried: the ones before it are sent, the ones after it pending. */
  lemma NoOtherRetry(w: World, h: nat, i: nat)
    requires Refused(w, h) && i != h
    ensures RetryFailed(w.lite, i) == None
  {
    hide Numbered, Delivered, Tracked, Enrolled;
  }

  lemma StillRefused(w: World, h: nat, w': World)
    requires Refused(w, h) && Valid(w') && w.lite.events <= w'.lite.events
    ensures Refused(w', h)
  {
    hide Valid;
    HeadIs(w'.lite.events, h);
  }

  /** Whatever is done next, other than retrying this event, only queues more behind it. */
  lemma RefusedStep(w: World, h: nat, s: Step)
    requires Refused(w, h) && s != Retrying(h)
    ensures Refused(Apply(w, s), h)
    ensures w.lite.events <= Apply(w, s).lite.events && Apply(w, s).master == w.master
    ensures Apply(w, s).lite.code == w.lite.code
  {
    RefusedOnlyGrows(w, h, s);
    hide *;
    StepKeepsValid(w, s) by { assert Valid(w) by { RefusedIsValid(w, h); } }
    StillRefused(w, h, Apply(w, s));
  }

  lemma RefusedIsValid(w: World, h: nat)
    requires Refused(w, h)
    ensures Valid(w)
  {
  }

  lemma RefusedOnlyGrows(w: World, h: nat, s: Step)
    requires Refused(w, h) && s != Retrying(h)
    ensures w.lite.events <= Apply(w, s).lite.events && Apply(w, s).master == w.master
    ensures Apply(w, s).lite.code == w.lite.code
  {
    hide Valid, Insert, Push, RetryFailed, Initialized, IsCode, InitialInventoryQueued, CursorAccepted, ConfiguredCode,
         LatestSequence, LastSent, Head;
    match s
    case Connecting(code, serials, actor, occurredAt, ids) =>
    case Initializing(serials, actor, occurredAt, ids) =>
    case SavingSettings(code) =>
    case CreatingBatch(b) =>
    case SubmittingBatch(b, r) =>
      var request := r.(aggregate := BatchAggregate, batchId := Some(b));
      if Insert(w.lite.events, request).Some? { InsertExtends(w.lite.events, request); }
    case Enqueueing(r) =>
      if Insert(w.lite.events, r).Some? { InsertExtends(w.lite.events, r); }
    case Pushing(turns) => RefusedIsNotPushed(w, h, turns);
    case Retrying(i) => NoOtherRetry(w, h, i);
  }

  lemma {:induction false} RefusedRun(w: World, h: nat, steps: seq<Step>)
    requires Refused(w, h) && Retrying(h) !in steps
    ensures Refused(Run(w, steps), h)
    ensures w.lite.events <= Run(w, steps).lite.events && Run(w, steps).master == w.master
    ensures Run(w, steps).lite.code == w.lite.code
    decreases |steps|
  {
    hide Refused, Apply;
    if steps != [] {
      RefusedRun(w, h, steps[..|steps| - 1]);
      RefusedStep(Run(w, steps[..|steps| - 1]), h, steps[|steps| - 1]);
    }
  }

  /**
   After any other failure nothing is sent, at whatever time, before an administrator retries that event;
   once that is done, a push that Master answers delivers the whole queue.
   */
  lemma RefusalsWait(w: World, turn: Turn, steps: seq<Step>, turns: seq<Turn>)
    requires Valid(w) && Initialized(w.lite) && Head(w.lite.events) < |w.lite.events|
    requires Due(w.lite.events[Head(w.lite.events)], turn.now, turn.staleAfter) && NeedsAdministrator(turn.exchange)
    requires Retrying(Head(w.lite.events)) !in steps
    ensures var h, after := Head(w.lite.events), Run(Push(w, [turn]), steps);
            Push(w, [turn]).lite.events <= after.lite.events && after.master == Push(w, [turn]).master
            && (turns != [] && AnswersFrom(after, h, turns, turns[0].now) ==>
                Drained(Push(Apply(after, Retrying(h)), turns)))
  {
    hide Valid, Initialized, Head, PassesByItself, NeedsAdministrator, Push, Drained, Apply, Run;
    FailureIsNoPass(turn.exchange);
    FailureIsScheduled(w, turn);
    var h, failed := Head(w.lite.events), Push(w, [turn]);
    RefusedRun(failed, h, steps);
    var after := Run(failed, steps);
    if turns != [] && AnswersFrom(after, h, turns, turns[0].now) {
      LongerIsInitialized(failed, after);
      RetriedDrains(after, h, turns);
    }
  }

  lemma LongerIsInitialized(w: World, w': World)
    requires Initialized(w.lite) && w'.lite.code == w.lite.code && w.lite.events <= w'.lite.events
    ensures Initialized(w'.lite)
  {
    hide ConfiguredCode, IsMarker;
    var e :| e in w.lite.events && IsMarker(e, ConfiguredCode(w.lite.code).value);
    assert e in w'.lite.events;
  }

  lemma FailureIsNoPass(x: Exchange)
    requires NeedsAdministrator(x)
    ensures !PassesByItself(x)
  {
  }

  lemma RetriedDrains(w: World, h: nat, turns: seq<Turn>)
    requires Refused(w, h) && Initialized(w.lite) && turns != [] && AnswersFrom(w, h, turns, turns[0].now)
    ensures Drained(Push(Apply(w, Retrying(h)), turns))
  {
    hide Valid, Initialized, Head, Push, Drained;
    DigestMatches(w, h);
    StepKeepsValid(w, Retrying(h));
    var after := Apply(w, Retrying(h));
    assert after.lite == RetryFailed(w.lite, h).value;
    FailedIsHead(w.lite.events, after.lite.events[h]);
    StillInitialized(w, after);
    DrainsWhenDue(after, turns);
  }
}
