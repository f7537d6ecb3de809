/**
 The whole Lite node: stock and outbox together. A service call that changes both commits both
 (app/routers/batches.py:1163-1197, app/services/relocation.py, app/services/transfer.py), and so does a
 command from Master (app/services/master_qr.py), so each joint run is at once a run of the stock
 machine and a run of the outbox, and everything proved about either holds of it. `ShopTheorems` adds
 the inbox, whose polls fall among these steps.
 */
module Shop {
  import opened Options
  import opened CanonicalJson
  import opened StockTypes
  import opened Outbox
  import BatchEvents
  import DraftBatches
  import Fefo
  import Inbox
  import N = OutboxRuns
  import QrCommands
  import Relocation
  import RelocationEvents
  import Replacement
  import S = StockRuns
  import StockTheorems
  import T = OutboxTheorems
  import Transfers

  /** `batches` in the stock tables and in the outbox are two views of one table. */
  datatype Shop = Shop(stock: Stock, world: World)

  datatype Step =
    | Opening(b: nat, kind: BatchType, reason: string)
    | Submitting(b: nat, checks: bool, header: BatchEvents.BatchHeader, itemSnapshot: (nat, Serial) -> Json)
    | Moving(locations: map<nat, Location>, destination: nat, items: seq<Relocation.MoveItem>,
             sender: RelocationEvents.Sender, snapshot: Serial -> Json, ids: nat -> string)
    | Transferring(call: S.Step, event: Request)                        // a dispatch or a receipt
    | Applying(env: QrCommands.Surroundings, command: Inbox.Command)    // a command from Master
    | Connecting(code: string, actor: Json, occurredAt: string, uuids: seq<string>, snapshot: Serial -> Json)
    | Initializing(actor: Json, occurredAt: string, uuids: seq<string>, snapshot: Serial -> Json)
    | Stocking(call: S.Step)     // a call that queues nothing
    | Networking(step: N.Step)   // a call that looks at no stock

  predicate QueuesNothing(s: S.Step) {
    s.Scanning? || s.Picking? || s.Removing? || s.ReturnScanning? || s.ReturnShelving? || s.Verifying?
  }

  predicate IsTransfer(s: S.Step, r: Request) {
    (s.Dispatching? || s.Receiving?) && r.aggregate == Aggregate.Transfer && r.batchId.None?
  }

  predicate LooksAtNoStock(s: N.Step) {
    s.Pushing? || s.Retrying? || s.SavingSettings?
    || (s.Enqueueing? && s.request.aggregate == Receipt && s.request.batchId.None?)
  }

  /** The rows the baseline query reads, in order of id. */
  function RowsBelow(serials: Serials, snapshot: Serial -> Json, n: nat): seq<SerialRow> {
    if n == 0 then []
    else
      RowsBelow(serials, snapshot, n - 1)
      + if n - 1 in serials then [SerialRow(serials[n - 1].active, serials[n - 1].status, snapshot(serials[n - 1]))]
        else []
  }

  function RowsOf(stock: Stock, snapshot: Serial -> Json): seq<SerialRow> {
    RowsBelow(stock.serials, snapshot, stock.nextId)
  }

  function WithLite(sh: Shop, stock: Stock, lite: Lite): Shop {
    Shop(stock, sh.world.(lite := lite))
  }

  /** One command, as the inbox's handler carries it out. */
  function Handle(env: QrCommands.Surroundings, sh: Shop, c: Inbox.Command): Inbox.Handled<Shop> {
    match QrCommands.Dispatch(env, QrCommands.App(sh.stock, sh.world.lite), c)
    case Done(app) => Inbox.Done(WithLite(sh, app.stock, app.lite))
    case Raised(app) => Inbox.Raised(WithLite(sh, app.stock, app.lite))
  }

  /** What a step does, unless it is refused. */
  function Attempt(sh: Shop, s: Step): Option<Shop> {
    var lite := sh.world.lite;
    match s
    case Opening(b, kind, reason) =>
      var stock :- DraftBatches.CreateBatch(sh.stock, b, kind, reason);
      if b in lite.batches then None
      else Some(WithLite(sh, stock, lite.(batches := lite.batches[b := Draft])))
    case Submitting(b, checks, header, itemSnapshot) =>
      var both :- BatchEvents.SubmitAndReport(sh.stock, lite, b, checks, header, itemSnapshot);
      Some(WithLite(sh, both.0, both.1))
    case Moving(locations, destination, items, sender, snapshot, ids) =>
      var both :- RelocationEvents.RelocateAndReport(sh.stock, lite, locations, destination, items, sender, snapshot,
          ids);
      Some(WithLite(sh, both.0, both.1))
    case Transferring(call, event) =>
      if !IsTransfer(call, event) then None
      else
        var stock :- S.Attempt(sh.stock, call);
        var queued :- Enqueue(lite, event);
        Some(WithLite(sh, stock, queued))
    case Applying(env, c) =>
      (match Handle(env, sh, c)
       case Done(after) => Some(after)
       case Raised(_) => None)
    case Connecting(code, actor, occurredAt, uuids, snapshot) =>
      Some(sh.(world := N.Apply(sh.world, N.Connecting(code, RowsOf(sh.stock, snapshot), actor, occurredAt, uuids))))
    case Initializing(actor, occurredAt, uuids, snapshot) =>
      Some(sh.(world := N.Apply(sh.world, N.Initializing(RowsOf(sh.stock, snapshot), actor, occurredAt, uuids))))
    case Stocking(call) => if QueuesNothing(call) then Some(sh.(stock := S.Next(sh.stock, call))) else None
    case Networking(step) => if LooksAtNoStock(step) then Some(sh.(world := N.Apply(sh.world, step))) else None
  }

  function Next(sh: Shop, s: Step): Shop {
    Attempt(sh, s).GetOr(sh)
  }

  function Run(sh: Shop, steps: seq<Step>): Shop {
    if steps == [] then sh else Next(Run(sh, steps[..|steps| - 1]), steps[|steps| - 1])
  }

  ghost predicate Start(sh: Shop) {
    S.Start(sh.stock) && N.Start(sh.world)
  }

  // ----- A joint run is a run of each machine -----

  /** The stock machine's part of one committed step. */
  ghost function StockPart(sh: Shop, s: Step): seq<S.Step> {
    match s
    case Opening(b, kind, reason) => [S.Creating(b, kind, reason)]
    case Submitting(b, checks, _, _) => [S.Submitting(b, checks)]
    case Moving(locations, destination, items, _, _, _) => [S.Relocating(locations, destination, items)]
    case Transferring(call, _) => [call]
    case Applying(env, c) => QrCommands.StockStepsOf(env, QrCommands.App(sh.stock, sh.world.lite), c)
    case Stocking(call) => [call]
    case _ => []
  }

  ghost function ChunkSteps(s: RelocationEvents.Sender, chunks: seq<seq<Json>>, ids: nat -> string, n: nat): seq<N.Step>
    requires n <= |chunks|
  {
    if n == 0 then []
    else ChunkSteps(s, chunks, ids, n - 1) + [N.Enqueueing(RelocationEvents.ChunkRequest(s, n, chunks[n - 1], ids(n)))]
  }

  /** The request of an accepted submission. */
  ghost function SubmissionRequest(sh: Shop, s: Step): Request
    requires s.Submitting?
  {
    var batch := if s.b in sh.stock.batches then sh.stock.batches[s.b] else Batch(Audit, false, "", [], [], {});
    var serials := S.Next(sh.stock, S.Submitting(s.b, s.checks)).serials;
    BatchEvents.BatchRequest(ConfiguredCode(sh.world.lite.code).GetOr(""), s.b, batch, s.header,
      BatchEvents.ItemSnapshots(s.itemSnapshot, serials, batch.items))
  }

  /** The outbox's part of one committed step. */
  ghost function NetPart(sh: Shop, s: Step): seq<N.Step> {
    match s
    case Opening(b, _, _) => [N.CreatingBatch(b)]
    case Submitting(b, _, _, _) => [N.SubmittingBatch(b, SubmissionRequest(sh, s))]
    case Moving(locations, destination, items, sender, snapshot, ids) =>
      var m := Relocation.Relocate(sh.stock, locations, destination, items);
      if m.None? then []
      else
        var chunks := RelocationEvents.Chunks(RelocationEvents.Snapshots(snapshot, m.value));
        ChunkSteps(sender, chunks, ids, |chunks|)
    case Transferring(_, event) => [N.Enqueueing(event)]
    case Applying(env, c) =>
      (match QrCommands.EventOf(env, QrCommands.App(sh.stock, sh.world.lite), c)
       case None => []
       case Some(event) => [N.Enqueueing(event)])
    case Connecting(code, actor, occurredAt, uuids, snapshot) =>
      [N.Connecting(code, RowsOf(sh.stock, snapshot), actor, occurredAt, uuids)]
    case Initializing(actor, occurredAt, uuids, snapshot) =>
      [N.Initializing(RowsOf(sh.stock, snapshot), actor, occurredAt, uuids)]
    case Stocking(_) => []
    case Networking(step) => [step]
  }

  ghost function StockTrace(sh: Shop, steps: seq<Step>): seq<S.Step> {
    if steps == [] then []
    else
      var init, s := steps[..|steps| - 1], steps[|steps| - 1];
      StockTrace(sh, init) + if Attempt(Run(sh, init), s).Some? then StockPart(Run(sh, init), s) else []
  }

  ghost function NetTrace(sh: Shop, steps: seq<Step>): seq<N.Step> {
    if steps == [] then []
    else
      var init, s := steps[..|steps| - 1], steps[|steps| - 1];
      NetTrace(sh, init) + if Attempt(Run(sh, init), s).Some? then NetPart(Run(sh, init), s) else []
  }

  lemma {:induction false} StockRunAppend(st: Stock, a: seq<S.Step>, b: seq<S.Step>)
    ensures S.Run(st, a + b) == S.Run(S.Run(st, a), b)
    decreases |b|
  {
    hide S.Next;
    if b == [] {
      assert a + b == a;
    } else {
      StockRunAppend(st, a, b[..|b| - 1]);
      assert (a + b)[..|a + b| - 1] == a + b[..|b| - 1];
    }
  }

  // ----- What each step commits -----

  lemma OpeningIs(sh: Shop, s: Step)
    requires s.Opening? && Attempt(sh, s).Some?
    ensures DraftBatches.CreateBatch(sh.stock, s.b, s.kind, s.reason).Some? && s.b !in sh.world.lite.batches
    ensures Attempt(sh, s).value
         == WithLite(sh, DraftBatches.CreateBatch(sh.stock, s.b, s.kind, s.reason).value,
                     sh.world.lite.(batches := sh.world.lite.batches[s.b := Draft]))
  {
    hide DraftBatches.CreateBatch, WithLite;
  }

  lemma SubmittingIs(sh: Shop, s: Step)
    requires s.Submitting? && Attempt(sh, s).Some?
    ensures var both := BatchEvents.SubmitAndReport(sh.stock, sh.world.lite, s.b, s.checks, s.header, s.itemSnapshot);
            both.Some? && Attempt(sh, s).value == WithLite(sh, both.value.0, both.value.1)
  {
    hide BatchEvents.SubmitAndReport, WithLite;
  }

  lemma MovingIs(sh: Shop, s: Step)
    requires s.Moving? && Attempt(sh, s).Some?
    ensures var both := RelocationEvents.RelocateAndReport(sh.stock, sh.world.lite, s.locations, s.destination, s.items,
                                                           s.sender, s.snapshot, s.ids);
            both.Some? && Attempt(sh, s).value == WithLite(sh, both.value.0, both.value.1)
  {
    hide RelocationEvents.RelocateAndReport, WithLite;
  }

  lemma TransferringIs(sh: Shop, s: Step)
    requires s.Transferring? && Attempt(sh, s).Some?
    ensures IsTransfer(s.call, s.event) && S.Attempt(sh.stock, s.call).Some? && Enqueue(sh.world.lite, s.event).Some?
    ensures Attempt(sh, s).value
         == WithLite(sh, S.Attempt(sh.stock, s.call).value, Enqueue(sh.world.lite, s.event).value)
  {
    hide S.Attempt, Enqueue, WithLite, IsTransfer;
  }

  lemma ApplyingIs(sh: Shop, s: Step)
    requires s.Applying? && Attempt(sh, s).Some?
    ensures var r := QrCommands.Dispatch(s.env, QrCommands.App(sh.stock, sh.world.lite), s.command);
            r.Done? && Attempt(sh, s).value == WithLite(sh, r.after.stock, r.after.lite)
  {
    hide QrCommands.Dispatch, WithLite;
  }

  /** Each committed step does to the stock what its stock part does. */
  lemma StockPartIs(sh: Shop, s: Step)
    requires Attempt(sh, s).Some?
    ensures S.Run(sh.stock, StockPart(sh, s)) == Attempt(sh, s).value.stock
  {
    hide DraftBatches.CreateBatch, DraftBatches.Submit, Relocation.Relocate, Enqueue, SubmitBatch, N.Apply,
         RelocationEvents.EnqueueChunks, RelocationEvents.Chunks, RelocationEvents.Snapshots, QrCommands.Dispatch,
         QrCommands.StockStepsOf, ConfiguredCode, BatchEvents.BatchRequest, S.Run;
    if s.Applying? {
      QrCommands.AppliedIsStockRun(s.env, QrCommands.App(sh.stock, sh.world.lite), s.command);
    } else if StockPart(sh, s) == [] {
      assert S.Run(sh.stock, []) == sh.stock by { NoStockSteps(sh.stock); }
    } else {
      QrCommands.OneStep(sh.stock, StockPart(sh, s)[0]);
      if s.Stocking? || s.Transferring? {
        hide S.Next;
      }
    }
  }

  lemma NoStockSteps(st: Stock)
    ensures S.Run(st, []) == st
  {
  }

  lemma NoNetSteps(w: World)
    ensures N.Run(w, []) == w
  {
  }

  lemma {:induction false} ChunkStepsRun(w: World, s: RelocationEvents.Sender, chunks: seq<seq<Json>>,
      ids: nat -> string, n: nat)
    requires n <= |chunks| && RelocationEvents.EnqueueChunks(w.lite, s, chunks, ids, n).Some?
    ensures N.Run(w, ChunkSteps(s, chunks, ids, n))
         == w.(lite := RelocationEvents.EnqueueChunks(w.lite, s, chunks, ids, n).value)
    decreases n
  {
    hide Enqueue, N.Run;
    if n == 0 {
      NoNetSteps(w);
    } else {
      ChunkStepsRun(w, s, chunks, ids, n - 1);
      var r := RelocationEvents.ChunkRequest(s, n, chunks[n - 1], ids(n));
      T.RunAppend(w, ChunkSteps(s, chunks, ids, n - 1), [N.Enqueueing(r)]);
      T.RunOne(N.Run(w, ChunkSteps(s, chunks, ids, n - 1)), N.Enqueueing(r));
    }
  }

  lemma SubmissionPartIs(sh: Shop, s: Step)
    requires s.Submitting? && Attempt(sh, s).Some?
    ensures N.Apply(sh.world, N.SubmittingBatch(s.b, SubmissionRequest(sh, s))) == Attempt(sh, s).value.world
  {
    hide Attempt, DraftBatches.Submit, Enqueue, SubmitBatch, ConfiguredCode, BatchEvents.BatchRequest,
         BatchEvents.ItemSnapshots;
    SubmittingIs(sh, s);
    BatchEvents.SubmittedWasOpen(sh.stock, s.b, s.checks);
  }

  lemma AppliedPartIs(sh: Shop, s: Step)
    requires s.Applying? && Attempt(sh, s).Some?
    ensures N.Run(sh.world, NetPart(sh, s)) == Attempt(sh, s).value.world
  {
    hide Attempt, Enqueue, N.Run, QrCommands.Dispatch, QrCommands.EventOf;
    var app := QrCommands.App(sh.stock, sh.world.lite);
    ApplyingIs(sh, s);
    QrCommands.AppliedQueues(s.env, app, s.command);
    if QrCommands.EventOf(s.env, app, s.command).Some? {
      T.RunOne(sh.world, N.Enqueueing(QrCommands.EventOf(s.env, app, s.command).value));
    } else {
      NoNetSteps(sh.world);
    }
  }

  /** Each committed step does to the outbox what its outbox part does. */
  lemma NetPartIs(sh: Shop, s: Step)
    requires Attempt(sh, s).Some?
    ensures N.Run(sh.world, NetPart(sh, s)) == Attempt(sh, s).value.world
  {
    hide DraftBatches.CreateBatch, Relocation.Relocate, Enqueue, S.Next, S.Attempt, RelocationEvents.EnqueueChunks,
         RelocationEvents.Chunks, RelocationEvents.Snapshots, N.Run, BatchEvents.SubmitAndReport, SubmissionRequest;
    match s
    case Stocking(_) => NoNetSteps(sh.world);
    case Moving(locations, destination, items, sender, snapshot, ids) =>
      var m := Relocation.Relocate(sh.stock, locations, destination, items).value;
      var chunks := RelocationEvents.Chunks(RelocationEvents.Snapshots(snapshot, m));
      ChunkStepsRun(sh.world, sender, chunks, ids, |chunks|);
    case Applying(_, _) => AppliedPartIs(sh, s);
    case Submitting(_, _, _, _) =>
      SubmissionPartIs(sh, s);
      T.RunOne(sh.world, NetPart(sh, s)[0]);
    case Networking(step) =>
      hide N.Apply;
      T.RunOne(sh.world, step);
    case _ => T.RunOne(sh.world, NetPart(sh, s)[0]);
  }

  /**
   Every joint run, seen from the stock, is a run of the stock machine, and seen from the outbox,
   a run of the outbox: the theorems of `StockTheorems` and `OutboxTheorems` hold of it.
   */
  lemma {:induction false} JointRunsProject(sh: Shop, steps: seq<Step>)
    ensures S.Run(sh.stock, StockTrace(sh, steps)) == Run(sh, steps).stock
    ensures N.Run(sh.world, NetTrace(sh, steps)) == Run(sh, steps).world
    decreases |steps|
  {
    hide Attempt, StockPart, NetPart, S.Run, N.Run;
    if steps == [] {
      NoStockSteps(sh.stock);
      NoNetSteps(sh.world);
    } else {
      var init, s := steps[..|steps| - 1], steps[|steps| - 1];
      JointRunsProject(sh, init);
      var before := Run(sh, init);
      if Attempt(before, s).Some? {
        StockRunAppend(sh.stock, StockTrace(sh, init), StockPart(before, s));
        T.RunAppend(sh.world, NetTrace(sh, init), NetPart(before, s));
        StockPartIs(before, s);
        NetPartIs(before, s);
      } else {
        assert StockTrace(sh, init) + [] == StockTrace(sh, init);
        assert NetTrace(sh, init) + [] == NetTrace(sh, init);
      }
    }
  }

  /** Both machines' invariants hold in every joint run. */
  lemma JointRunIsValid(sh: Shop, steps: seq<Step>)
    requires Start(sh)
    ensures S.Valid(Run(sh, steps).stock, S.Retired(sh.stock)) && N.Valid(Run(sh, steps).world)
  {
    hide S.Run, N.Run, Run, S.Valid, N.Valid;
    JointRunsProject(sh, steps);
    S.RunKeepsValid(sh.stock, StockTrace(sh, steps));
    N.RunKeepsValid(sh.world, NetTrace(sh, steps));
  }

  // ----- The two views of the batches agree -----

  ghost predicate Coupled(sh: Shop) {
    sh.stock.batches.Keys == sh.world.lite.batches.Keys
    && forall b :: b in sh.stock.batches ==> (sh.stock.batches[b].draft <==> sh.world.lite.batches[b] == Draft)
  }

  ghost predicate SameDrafts(batches: map<nat, BatchStatus>, other: map<nat, BatchStatus>) {
    batches.Keys == other.Keys && forall b :: b in batches ==> (batches[b] == Draft <==> other[b] == Draft)
  }

  /** The batch that event `h` reports is no draft. */
  ghost predicate OwnerSubmitted(lite: Lite, h: nat) {
    h < |lite.events|
    && (lite.events[h].batchId.Some? && lite.events[h].batchId.value in lite.batches
        ==> lite.batches[lite.events[h].batchId.value] != Draft)
  }

  lemma TrackedOwner(lite: Lite, h: nat)
    requires N.Tracked(lite) && h < |lite.events|
    ensures OwnerSubmitted(lite, h)
  {
    if lite.events[h].batchId.Some? {
      assert N.Reports(lite.events[h], lite.events[h].batchId.value);
    }
  }

  lemma StoreKeepsDrafts(lite: Lite, h: nat, f: Event, status: BatchStatus)
    requires OwnerSubmitted(lite, h) && f.batchId == lite.events[h].batchId && status != Draft
    ensures SameDrafts(lite.batches, Store(lite, h, f, status).batches) && OwnerSubmitted(Store(lite, h, f, status), h)
  {
  }

  lemma PushOneKeepsDrafts(w: World, turn: Turn)
    requires N.Valid(w)
    ensures SameDrafts(w.lite.batches, PushOne(w, turn).0.lite.batches)
  {
    hide N.Valid, Ingest, NotDue, LeaseHeld, Store, RetryDelay, FailEvent, ClaimEvent, Post, RecoverEvent,
         N.Tracked, SameDrafts;
    var h := Head(w.lite.events);
    SameDraftsSelf(w.lite.batches);
    if h < |w.lite.events| {
      TrackedWhenValid(w);
      TrackedOwner(w.lite, h);
      RecoverKeepsDrafts(w.lite, h, turn.now);
      var lite := if w.lite.events[h].status == Sending then RecoverEvent(w.lite, h, turn.now) else w.lite;
      FailKeepsDrafts(lite, h, turn.now, false);
      ClaimKeepsDrafts(lite, h, turn.now);
      var claimed := ClaimEvent(lite, h, turn.now);
      PostKeepsDrafts(w.(lite := claimed), h, turn);
      SameDraftsTwice(lite.batches, claimed.batches, Post(w.(lite := claimed), h, turn).0.lite.batches);
    }
  }

  lemma SameDraftsSelf(batches: map<nat, BatchStatus>)
    ensures SameDrafts(batches, batches)
  {
  }

  lemma SameDraftsTwice(a: map<nat, BatchStatus>, b: map<nat, BatchStatus>, c: map<nat, BatchStatus>)
    requires SameDrafts(a, b) && SameDrafts(b, c)
    ensures SameDrafts(a, c)
  {
  }

  lemma RecoverKeepsDrafts(lite: Lite, h: nat, now: int)
    requires OwnerSubmitted(lite, h)
    ensures RecoverEvent(lite, h, now).batches == lite.batches && OwnerSubmitted(RecoverEvent(lite, h, now), h)
    ensures |RecoverEvent(lite, h, now).events| == |lite.events|
  {
  }

  lemma TrackedWhenValid(w: World)
    requires N.Valid(w)
    ensures N.Tracked(w.lite)
  {
  }

  lemma FailKeepsDrafts(lite: Lite, h: nat, now: int, retryable: bool)
    requires OwnerSubmitted(lite, h)
    ensures SameDrafts(lite.batches, FailEvent(lite, h, now, retryable).batches)
  {
    hide Store, RetryDelay;
    StoreKeepsDrafts(lite, h, lite.events[h].(status := Failed, sendingAt := None,
      nextAttemptAt := if retryable then Some(now + RetryDelay(lite.events[h].attempts)) else None), SyncFailed);
  }

  lemma ClaimKeepsDrafts(lite: Lite, h: nat, now: int)
    requires OwnerSubmitted(lite, h)
    ensures SameDrafts(lite.batches, ClaimEvent(lite, h, now).batches) && OwnerSubmitted(ClaimEvent(lite, h, now), h)
  {
    hide Store;
    StoreKeepsDrafts(lite, h, lite.events[h].(status := Sending, attempts := lite.events[h].attempts + 1,
      sendingAt := Some(now), nextAttemptAt := None), Syncing);
  }

  lemma PostKeepsDrafts(w: World, h: nat, turn: Turn)
    requires OwnerSubmitted(w.lite, h)
    ensures SameDrafts(w.lite.batches, Post(w, h, turn).0.lite.batches)
  {
    hide Ingest, FailEvent, Retryable, Store;
    FailKeepsDrafts(w.lite, h, turn.now, true);
    FailKeepsDrafts(w.lite, h, turn.now, false);
    StoreKeepsDrafts(w.lite, h, w.lite.events[h].(status := Sent, sendingAt := None, nextAttemptAt := None), Synced);
  }

  lemma {:induction false} PushAllKeepsDrafts(w: World, turns: seq<Turn>)
    requires N.Valid(w)
    ensures SameDrafts(w.lite.batches, PushAll(w, turns).lite.batches)
    decreases |turns|
  {
    hide N.Valid, PushOne;
    if turns != [] {
      PushOneKeepsDrafts(w, turns[0]);
      N.PushOneKeepsValid(w, turns[0]);
      PushAllKeepsDrafts(PushOne(w, turns[0]).0, turns[1..]);
    }
  }

  lemma RetryKeepsDrafts(w: World, i: nat)
    requires N.Valid(w) && RetryFailed(w.lite, i).Some?
    ensures SameDrafts(w.lite.batches, RetryFailed(w.lite, i).value.batches)
  {
    hide N.Valid;
    TrackedWhenValid(w);
    TrackedOwner(w.lite, i);
  }

  /** Pushes, retries, settings and other events never turn a draft into a submitted batch, or back. */
  lemma NetworkingKeepsDrafts(w: World, s: N.Step)
    requires N.Valid(w) && !s.CreatingBatch? && !s.SubmittingBatch?
    ensures SameDrafts(w.lite.batches, N.Apply(w, s).lite.batches)
  {
    hide N.Valid, PushAll, RetryFailed, Insert, InsertParts, Initialized, IdentityAccepted, CursorAccepted,
         ConfiguredCode, LastSent, LatestSequence, BaselineItems;
    match s
    case Connecting(code, serials, actor, occurredAt, ids) =>
    case Initializing(serials, actor, occurredAt, ids) =>
    case SavingSettings(code) =>
    case Enqueueing(r) =>
    case Pushing(turns) => PushAllKeepsDrafts(w, turns);
    case Retrying(i) =>
      if RetryFailed(w.lite, i).Some? {
        RetryKeepsDrafts(w, i);
      }
  }

  ghost predicate SameDraftFlags(batches: map<nat, Batch>, other: map<nat, Batch>) {
    batches.Keys == other.Keys && forall b :: b in batches ==> batches[b].draft == other[b].draft
  }

  /** Scans, picks, removals and returns never submit a batch. */
  lemma StockingKeepsDrafts(st: Stock, s: S.Step)
    requires QueuesNothing(s)
    ensures SameDraftFlags(st.batches, S.Next(st, s).batches)
  {
    hide Fefo.Candidates, Fefo.FefoAllows, Fefo.Without, DraftBatches.Admissible, DraftBatches.InOtherDraft,
         Normalize, DraftBatches.Placed, DraftBatches.Unverified, Fefo.Elements;
  }

  /** Transfers and labels never touch a batch. */
  lemma {:induction false} LabelStepKeepsBatches(st: Stock, retired: set<nat>, s: S.Step)
    requires S.Valid(st, retired)
    requires s.Allocating? || s.Replacing? || s.Dispatching? || s.Receiving? || s.Confirming? || s.Arriving?
    ensures S.Next(st, s).batches == st.batches
  {
    if s.Arriving? {
      hide S.Valid, S.Next, S.Attempt;
      ArrivingKeepsBatches(st, retired, s);
    } else {
      hide S.Valid, Replacement.Allocated, Replacement.LabelOk, NumberTaken, Replacement.Repeats,
           Replacement.IsMasterSerial, Replacement.Replaceable, Transfers.ClaimEach, Transfers.TransferRows;
    }
  }

  lemma ArrivingKeepsBatches(st: Stock, retired: set<nat>, s: S.Step)
    requires S.Valid(st, retired) && s.Arriving?
    ensures S.Next(st, s).batches == st.batches
  {
    hide S.Valid, Transfers.ArriveAll, Transfers.RepeatsNumber;
    if S.Attempt(st, s).Some? {
      ArriveAllKeepsBatches(st, retired, s.manifest, s.now);
    }
  }

  lemma {:induction false} ArriveAllKeepsBatches(st: Stock, retired: set<nat>, manifest: seq<Transfers.Arrival>,
      now: int)
    requires S.Valid(st, retired) && Transfers.ArriveAll(st, manifest, now).Some?
    ensures Transfers.ArriveAll(st, manifest, now).value.batches == st.batches
    decreases |manifest|
  {
    hide S.Valid, Transfers.ArriveOne;
    if manifest != [] {
      var init := manifest[..|manifest| - 1];
      ArriveAllKeepsBatches(st, retired, init, now);
      S.ArriveAllKeepsValid(st, retired, init, now);
      StockTheorems.FreshIds(Transfers.ArriveAll(st, init, now).value, retired);
      StockTheorems.ArriveOneAt(Transfers.ArriveAll(st, init, now).value, manifest[|manifest| - 1], now);
    }
  }

  lemma {:induction false} LabelRunKeepsBatches(st: Stock, retired: set<nat>, steps: seq<S.Step>)
    requires S.Valid(st, retired)
    requires forall s <- steps :: s.Allocating? || s.Replacing? || s.Confirming? || s.Arriving?
    ensures S.Run(st, steps).batches == st.batches
    decreases |steps|
  {
    hide S.Valid, S.Next;
    if steps != [] {
      var init := steps[..|steps| - 1];
      assert steps[|steps| - 1] in steps && forall s <- init :: s in steps;
      LabelRunKeepsBatches(st, retired, init);
      QrCommands.RunFromKeepsValid(st, init, retired);
      LabelStepKeepsBatches(S.Run(st, init), retired, steps[|steps| - 1]);
    }
  }

  lemma {:induction false} AcceptedAreTransfers(st: Stock, steps: seq<S.Step>)
    requires QrCommands.AllAccepted(st, steps).Some?
    ensures forall s <- steps :: s.Confirming? || s.Arriving?
    decreases |steps|
  {
    hide S.Attempt;
    if steps != [] {
      var init := steps[..|steps| - 1];
      AcceptedAreTransfers(st, init);
      assert steps == init + [steps[|steps| - 1]];
    }
  }

  lemma AppliedStepsAreLabels(env: QrCommands.Surroundings, app: QrCommands.App, c: Inbox.Command)
    requires QrCommands.Dispatch(env, app, c).Done?
    ensures forall s <- QrCommands.StockStepsOf(env, app, c) ::
            s.Allocating? || s.Replacing? || s.Confirming? || s.Arriving?
  {
    hide QrCommands.Addressed, QrCommands.RelabellingOf, QrCommands.LabelsOf, Replacement.Allocate,
         Replacement.Replace, Enqueue, QrCommands.AllAccepted;
    if c.kind != "QR_ALLOCATED" && c.kind != "QR_REPLACE" {
      AcceptedAreTransfers(app.stock, env.others(app.stock, c).value);
    }
  }

  lemma ApplyingKeepsBatches(sh: Shop, retired: set<nat>, s: Step)
    requires s.Applying? && Attempt(sh, s).Some? && S.Valid(sh.stock, retired)
    ensures Attempt(sh, s).value.stock.batches == sh.stock.batches
    ensures Attempt(sh, s).value.world.lite.batches == sh.world.lite.batches
  {
    hide Attempt, QrCommands.Dispatch, QrCommands.StockStepsOf, QrCommands.EventOf, S.Run, S.Valid, Enqueue;
    var app := QrCommands.App(sh.stock, sh.world.lite);
    ApplyingIs(sh, s);
    QrCommands.AppliedIsStockRun(s.env, app, s.command);
    AppliedStepsAreLabels(s.env, app, s.command);
    LabelRunKeepsBatches(sh.stock, retired, QrCommands.StockStepsOf(s.env, app, s.command));
    QrCommands.AppliedQueues(s.env, app, s.command);
    if QrCommands.EventOf(s.env, app, s.command).Some? {
      BatchEvents.EnqueueIsSnoc(sh.world.lite, QrCommands.EventOf(s.env, app, s.command).value);
    }
  }

  lemma TransferringKeepsBatches(sh: Shop, retired: set<nat>, s: Step)
    requires s.Transferring? && Attempt(sh, s).Some? && S.Valid(sh.stock, retired)
    ensures Attempt(sh, s).value.stock.batches == sh.stock.batches
    ensures Attempt(sh, s).value.world.lite.batches == sh.world.lite.batches
  {
    hide Attempt, Enqueue, S.Valid, S.Attempt;
    TransferringIs(sh, s);
    LabelStepKeepsBatches(sh.stock, retired, s.call);
    BatchEvents.EnqueueIsSnoc(sh.world.lite, s.event);
  }

  lemma MovingKeepsBatches(sh: Shop, s: Step)
    requires s.Moving? && Attempt(sh, s).Some?
    ensures Attempt(sh, s).value.stock.batches == sh.stock.batches
    ensures Attempt(sh, s).value.world.lite.batches == sh.world.lite.batches
  {
    hide Attempt, Relocation.Relocate, RelocationEvents.EnqueueChunks, RelocationEvents.Chunks,
         RelocationEvents.Snapshots;
    MovingIs(sh, s);
    RelocationEvents.RelocationIsReported(sh.stock, sh.world.lite, s.locations, s.destination, s.items, s.sender,
        s.snapshot, s.ids);
  }

  lemma SubmittingKeepsCoupled(sh: Shop, retired: set<nat>, s: Step)
    requires Coupled(sh) && s.Submitting? && Attempt(sh, s).Some? && S.Valid(sh.stock, retired)
    ensures Coupled(Attempt(sh, s).value)
  {
    hide Attempt, DraftBatches.Submit, S.Valid, DraftBatches.Distinct, ConfiguredCode, DraftBatches.Complete,
         DraftBatches.AllAdmissible, DraftBatches.Shifted, DraftBatches.Rows, SubmitBatch, BatchEvents.BatchRequest,
         BatchEvents.SubmissionEvent;
    SubmittingIs(sh, s);
    BatchEvents.SubmittedWasOpen(sh.stock, s.b, s.checks);
    S.OpenIsDistinct(sh.stock, retired, s.b);
    BatchEvents.SubmissionIsReported(sh.stock, sh.world.lite, s.b, s.checks, s.header, s.itemSnapshot);
    DraftBatches.SubmitExactly(sh.stock, s.b, s.checks);
  }

  lemma OpeningKeepsCoupled(sh: Shop, s: Step)
    requires Coupled(sh) && s.Opening?
    ensures Coupled(Next(sh, s))
  {
    hide Attempt;
    if Attempt(sh, s).Some? {
      OpeningIs(sh, s);
    }
  }

  /** The remaining steps change one side, and there no draft. */
  lemma OneSideKeepsCoupled(sh: Shop, s: Step)
    requires Coupled(sh) && N.Valid(sh.world)
    requires s.Connecting? || s.Initializing? || s.Stocking? || s.Networking?
    ensures Coupled(Next(sh, s))
  {
    hide N.Valid, N.Apply, S.Next, RowsOf;
    match s
    case Connecting(code, actor, occurredAt, uuids, snapshot) =>
      NetworkingKeepsDrafts(sh.world, N.Connecting(code, RowsOf(sh.stock, snapshot), actor, occurredAt, uuids));
    case Initializing(actor, occurredAt, uuids, snapshot) =>
      NetworkingKeepsDrafts(sh.world, N.Initializing(RowsOf(sh.stock, snapshot), actor, occurredAt, uuids));
    case Stocking(call) =>
      if QueuesNothing(call) {
        StockingKeepsDrafts(sh.stock, call);
      }
    case Networking(step) =>
      if LooksAtNoStock(step) {
        NetworkingKeepsDrafts(sh.world, step);
      }
  }

  lemma StepKeepsCoupled(sh: Shop, retired: set<nat>, s: Step)
    requires Coupled(sh) && N.Valid(sh.world) && S.Valid(sh.stock, retired)
    ensures Coupled(Next(sh, s))
  {
    hide N.Valid, S.Valid, Attempt;
    if s.Opening? {
      OpeningKeepsCoupled(sh, s);
    } else if s.Submitting? {
      if Attempt(sh, s).Some? {
        SubmittingKeepsCoupled(sh, retired, s);
      }
    } else if s.Moving? || s.Transferring? || s.Applying? {
      if Attempt(sh, s).Some? {
        QueueingKeepsBatches(sh, retired, s);
      }
    } else {
      OneSideKeepsCoupled(sh, s);
    }
  }

  lemma QueueingKeepsBatches(sh: Shop, retired: set<nat>, s: Step)
    requires (s.Moving? || s.Transferring? || s.Applying?) && Attempt(sh, s).Some? && S.Valid(sh.stock, retired)
    ensures Attempt(sh, s).value.stock.batches == sh.stock.batches
    ensures Attempt(sh, s).value.world.lite.batches == sh.world.lite.batches
  {
    hide S.Valid, Attempt;
    match s
    case Moving(_, _, _, _, _, _) => MovingKeepsBatches(sh, s);
    case Transferring(_, _) => TransferringKeepsBatches(sh, retired, s);
    case Applying(_, _) => ApplyingKeepsBatches(sh, retired, s);
  }

  /** In every joint run, the stock tables and the outbox agree on which batches are still drafts. */
  lemma {:induction false} RunKeepsCoupled(sh: Shop, steps: seq<Step>)
    requires Start(sh)
    ensures Coupled(Run(sh, steps))
    decreases |steps|
  {
    hide N.Valid, S.Valid, Next;
    if steps != [] {
      var init := steps[..|steps| - 1];
      RunKeepsCoupled(sh, init);
      JointRunIsValid(sh, init);
      StepKeepsCoupled(Run(sh, init), S.Retired(sh.stock), steps[|steps| - 1]);
    }
  }
}
