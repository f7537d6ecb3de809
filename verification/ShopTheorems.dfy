/**
 What holds in every joint run of stock, outbox and inbox: what the first events say, what each later
 one reports, and how commands from Master fall among the node's own calls.
 */
module ShopTheorems {
  import opened Options
  import opened CanonicalJson
  import opened EventEnvelope
  import opened BaselinePacking
  import opened StockTypes
  import opened Outbox
  import opened Shop
  import BatchEvents
  import DraftBatches
  import Inbox
  import N = OutboxRuns
  import QrCommands
  import RelocationEvents
  import S = StockRuns
  import StockTheorems
  import T = OutboxTheorems

  // ----- Submission -----

  /** Whatever happens on the network, no open batch of a joint run meets a conflict on submission. */
  lemma JointSubmissionMeetsNoConflict(sh: Shop, steps: seq<Step>, b: nat, checks: bool)
    requires Start(sh) && DraftBatches.IsOpen(Run(sh, steps).stock, b)
    ensures var st := Run(sh, steps).stock;
            DraftBatches.Submit(st, b, checks).Some? <==>
            DraftBatches.Complete(st.batches[b], checks) && StockTheorems.AllPresent(st.serials, st.batches[b])
  {
    hide N.Run, S.Run, Run, DraftBatches.Submit, DraftBatches.Complete;
    JointRunsProject(sh, steps);
    StockTheorems.SubmissionMeetsNoConflict(sh.stock, StockTrace(sh, steps), b, checks);
  }

  // ----- From one step to the next -----

  lemma StepExtends(sh: Shop, s: Step)
    requires N.Valid(sh.world)
    ensures T.Extends(sh.world, Next(sh, s).world) && N.Valid(Next(sh, s).world)
  {
    hide N.Valid, T.Extends, Attempt, NetPart, N.Run;
    if Attempt(sh, s).Some? {
      NetPartIs(sh, s);
      T.RunFromExtends(sh.world, NetPart(sh, s));
      T.RunFromKeepsValid(sh.world, NetPart(sh, s));
    } else {
      T.ExtendsSelf(sh.world);
    }
  }

  // ----- The baseline of a run -----

  predicate Enrols(s: Step) {
    s.Connecting? || s.Initializing?
  }

  lemma {:induction false} ChunkStepsQueue(s: RelocationEvents.Sender, chunks: seq<seq<Json>>, ids: nat -> string,
      n: nat)
    requires n <= |chunks|
    ensures forall step <- ChunkSteps(s, chunks, ids, n) ::
              step.Enqueueing? && step.request.aggregate == Aggregate.Relocation && step.request.batchId.None?
    decreases n
  {
    if n > 0 {
      ChunkStepsQueue(s, chunks, ids, n - 1);
    }
  }

  /** A command that is applied queues at most a replacement event. */
  lemma AppliedEvent(sh: Shop, s: Step)
    requires s.Applying? && Attempt(sh, s).Some?
    ensures forall step <- NetPart(sh, s) :: step.Enqueueing? && step.request.aggregate == QrReplacement
    ensures NetPart(sh, s) == [] <==> s.command.kind != "QR_REPLACE"
  {
    hide Attempt, QrCommands.Dispatch, QrCommands.EventOf, Enqueue;
    ApplyingIs(sh, s);
    QrCommands.AppliedQueues(s.env, QrCommands.App(sh.stock, sh.world.lite), s.command);
  }

  lemma PartEnrolsNot(sh: Shop, s: Step)
    requires Attempt(sh, s).Some? && !Enrols(s)
    ensures forall step <- NetPart(sh, s) :: !T.MayEnrol(step)
  {
    hide Attempt, NetPart;
    if s.Applying? {
      AppliedEvent(sh, s);
    } else if s.Moving? {
      MovingQueues(sh, s);
    } else {
      OnePart(sh, s);
    }
  }

  /** The other steps have one part at most, of a kind that shows. */
  lemma OnePart(sh: Shop, s: Step)
    requires Attempt(sh, s).Some? && !s.Applying? && !s.Moving?
    ensures forall step <- NetPart(sh, s) ::
      (T.MayEnrol(step) <==> Enrols(s))
        && (step.Enqueueing? ==> step.request.aggregate in {Aggregate.Transfer, Receipt})
  {
    hide DraftBatches.CreateBatch, BatchEvents.SubmitAndReport, S.Attempt, S.Next, N.Apply, Enqueue,
         SubmissionRequest, RowsOf;
  }

  lemma MovingQueues(sh: Shop, s: Step)
    requires s.Moving?
    ensures forall step <- NetPart(sh, s) ::
              step.Enqueueing? && step.request.aggregate == Aggregate.Relocation && step.request.batchId.None?
  {
    hide Relocation.Relocate, RelocationEvents.Chunks, RelocationEvents.Snapshots, RelocationEvents.ChunkRequest;
    var m := Relocation.Relocate(sh.stock, s.locations, s.destination, s.items);
    if m.Some? {
      var chunks := RelocationEvents.Chunks(RelocationEvents.Snapshots(s.snapshot, m.value));
      ChunkStepsQueue(s.sender, chunks, s.ids, |chunks|);
    }
  }

  /** Only an enrolment makes the first event. */
  lemma OthersStayEmpty(sh: Shop, s: Step)
    requires N.Valid(sh.world) && sh.world.lite.events == [] && !Enrols(s)
    ensures Next(sh, s).world.lite.events == []
  {
    hide N.Valid, Attempt, NetPart, N.Run, T.MayEnrol;
    if Attempt(sh, s).Some? {
      NetPartIs(sh, s);
      PartEnrolsNot(sh, s);
      T.RunStaysEmpty(sh.world, NetPart(sh, s));
    }
  }

  /** The units of the baseline, in order of id. */
  ghost function BaselineIds(serials: Serials, n: nat): (ids: seq<nat>)
    ensures forall i <- ids :: i < n
  {
    if n == 0 then []
    else
      BaselineIds(serials, n - 1)
      + if n - 1 in serials && IsBaselineUnit(serials[n - 1]) then [n - 1] else []
  }

  /** In use, and unassigned or in stock. */
  predicate IsBaselineUnit(s: Serial) {
    s.active && s.status in {Generated, InStock}
  }

  ghost function SnapshotsOf(serials: Serials, snapshot: Serial -> Json, ids: seq<nat>): seq<Json> {
    seq(|ids|, k requires 0 <= k < |ids| => if ids[k] in serials then snapshot(serials[ids[k]]) else Null)
  }

  function ItemOf(row: SerialRow): seq<Json> {
    if InBaseline(row) then [row.item] else []
  }

  lemma BaselineItemsOfOne(row: SerialRow)
    ensures BaselineItems([row]) == ItemOf(row) && BaselineItems([]) == []
  {
    hide InBaseline;
    assert [row][1..] == [];
  }

  lemma BaselineItemsCons(row: SerialRow, rest: seq<SerialRow>)
    ensures BaselineItems([row] + rest) == ItemOf(row) + BaselineItems(rest)
  {
    hide InBaseline;
    assert ([row] + rest)[1..] == rest;
  }

  lemma {:induction false} BaselineItemsSnoc(rows: seq<SerialRow>, row: SerialRow)
    ensures BaselineItems(rows + [row]) == BaselineItems(rows) + ItemOf(row)
    decreases |rows|
  {
    hide *;
    BaselineItemsOfOne(row);
    if rows == [] {
      assert rows + [row] == [row];
    } else {
      var first, rest := rows[0], rows[1..];
      assert rows == [first] + rest && rows + [row] == [first] + (rest + [row]);
      BaselineItemsSnoc(rest, row);
      BaselineItemsCons(first, rest);
      BaselineItemsCons(first, rest + [row]);
    }
  }

  lemma SnapshotsSnoc(serials: Serials, snapshot: Serial -> Json, ids: seq<nat>, i: nat)
    requires i in serials
    ensures SnapshotsOf(serials, snapshot, ids + [i]) == SnapshotsOf(serials, snapshot, ids) + [snapshot(serials[i])]
  {
  }

  lemma {:induction false} BaselineItemsAre(serials: Serials, snapshot: Serial -> Json, n: nat)
    ensures BaselineItems(RowsBelow(serials, snapshot, n)) == SnapshotsOf(serials, snapshot, BaselineIds(serials, n))
    decreases n
  {
    hide BaselineItems, SnapshotsOf, InBaseline;
    if n == 0 {
      assert BaselineItems([]) == SnapshotsOf(serials, snapshot, []) by { NoRows(serials, snapshot); }
    } else {
      var before, ids, i := RowsBelow(serials, snapshot, n - 1), BaselineIds(serials, n - 1), n - 1;
      BaselineItemsAre(serials, snapshot, n - 1);
      if i in serials {
        var row := SerialRow(serials[i].active, serials[i].status, snapshot(serials[i]));
        BaselineItemsSnoc(before, row);
        SnapshotsSnoc(serials, snapshot, ids, i);
        assert InBaseline(row) == IsBaselineUnit(serials[i]) by { ItemDoesNotMatter(row, serials[i]); }
        assert ids + [] == ids && BaselineItems(before) + [] == BaselineItems(before);
      } else {
        assert before + [] == before && ids + [] == ids;
      }
    }
  }

  lemma ItemDoesNotMatter(row: SerialRow, s: Serial)
    requires row.active == s.active && row.status == s.status
    ensures InBaseline(row) == IsBaselineUnit(s)
  {
  }

  lemma NoRows(serials: Serials, snapshot: Serial -> Json)
    ensures BaselineItems([]) == SnapshotsOf(serials, snapshot, [])
  {
  }

  /**
   The baseline holds a snapshot of every unit that is in use and unassigned or in stock, each once,
   and of no other.
   */
  lemma {:induction false} BaselineListsUnits(serials: Serials, snapshot: Serial -> Json, n: nat)
    ensures BaselineItems(RowsBelow(serials, snapshot, n)) == SnapshotsOf(serials, snapshot, BaselineIds(serials, n))
    ensures DraftBatches.Distinct(BaselineIds(serials, n))
    ensures forall i: nat :: i in BaselineIds(serials, n) <==> i < n && i in serials && IsBaselineUnit(serials[i])
    decreases n
  {
    hide BaselineItems, RowsBelow, SnapshotsOf, IsBaselineUnit;
    BaselineItemsAre(serials, snapshot, n);
    if n > 0 {
      BaselineListsUnits(serials, snapshot, n - 1);
      assert n - 1 !in BaselineIds(serials, n - 1);
    }
  }

  /** What an enrolling step asks for. */
  datatype Enrolment = Enrolment(code: string, actor: Json, occurredAt: string, uuids: seq<string>,
      snapshot: Serial -> Json)

  function EnrolmentOf(sh: Shop, s: Step): Enrolment
    requires Enrols(s)
  {
    match s
    case Connecting(code, actor, occurredAt, uuids, snapshot) => Enrolment(code, actor, occurredAt, uuids, snapshot)
    case Initializing(actor, occurredAt, uuids, snapshot) =>
      Enrolment(sh.world.lite.code, actor, occurredAt, uuids, snapshot)
  }

  /** These events list these units: the parts of a packing of their snapshots, or the empty marker. */
  ghost predicate ListsUnits(first: seq<Event>, b: Baseline, units: seq<Json>, uuids: seq<string>) {
    if units == [] then uuids != [] && first == [Frozen(EmptyRequest(b, uuids[0]), 1)]
    else exists parts: seq<Part> :: T.ListsParts(first, b, parts, uuids) && IsPacking(b, units, parts)
  }

  /** Snapshots of the units the baseline is about, in order of id. */
  ghost function UnitsOf(stock: Stock, snapshot: Serial -> Json): seq<Json> {
    SnapshotsOf(stock.serials, snapshot, BaselineIds(stock.serials, stock.nextId))
  }

  /** The baseline an enrolling step would queue for the stock of its moment. */
  ghost predicate IsBaseline(first: seq<Event>, code: string, stock: Stock, e: Enrolment) {
    ConfiguredCode(code).Some?
    && ListsUnits(first, Baseline(ConfiguredCode(code).value, e.actor, e.occurredAt),
                  UnitsOf(stock, e.snapshot), e.uuids)
  }

  /** The step that queues the first events queues the baseline of the stock as it is then. */
  lemma EnrolmentListsStock(sh: Shop, s: Step)
    requires N.Valid(sh.world) && sh.world.lite.events == [] && Enrols(s) && Next(sh, s).world.lite.events != []
    ensures IsBaseline(Next(sh, s).world.lite.events, Next(sh, s).world.lite.code, sh.stock, EnrolmentOf(sh, s))
  {
    hide N.Valid, EnqueueInitial, IdentityAccepted, CursorAccepted, LastSent, LatestSequence, ConfiguredCode,
         RowsOf, ListsUnits, UnitsOf;
    var e := EnrolmentOf(sh, s);
    var rows := RowsOf(sh.stock, e.snapshot);
    var lite := sh.world.lite.(code := e.code);
    assert |e.uuids| > |rows| && EnqueueInitial(lite, rows, e.actor, e.occurredAt, e.uuids).Some?
        && Next(sh, s).world.lite == EnqueueInitial(lite, rows, e.actor, e.occurredAt, e.uuids).value;
    FreshListsUnits(lite, sh.stock, e);
  }

  lemma FreshListsUnits(lite: Lite, stock: Stock, e: Enrolment)
    requires var rows := RowsOf(stock, e.snapshot);
             |e.uuids| > |rows| && EnqueueInitial(lite, rows, e.actor, e.occurredAt, e.uuids).Some?
    ensures var queued := EnqueueInitial(lite, RowsOf(stock, e.snapshot), e.actor, e.occurredAt, e.uuids).value;
            queued.code == lite.code && IsBaseline(queued.events, lite.code, stock, e)
  {
    hide ConfiguredCode, EmptyRequest, Frozen, T.ListsParts, IsPacking, BaselineItems, SnapshotsOf, BaselineIds,
         RowsBelow, EnqueueInitial;
    var rows := RowsOf(stock, e.snapshot);
    T.BaselineListsStock(lite, rows, e.actor, e.occurredAt, e.uuids);
    BaselineListsUnits(stock.serials, e.snapshot, stock.nextId);
    KeepsCode(lite, rows, e.actor, e.occurredAt, e.uuids);
  }

  lemma KeepsCode(lite: Lite, rows: seq<SerialRow>, actor: Json, occurredAt: string, uuids: seq<string>)
    requires |uuids| > |rows| && EnqueueInitial(lite, rows, actor, occurredAt, uuids).Some?
    ensures EnqueueInitial(lite, rows, actor, occurredAt, uuids).value.code == lite.code
  {
    hide ConfiguredCode, Insert, InsertParts, Pack, BaselineItems;
  }

  /**
   The first events of this outbox are the baseline queued at step `k`, for the stock as it was then,
   under the code in use; and there is no other.
   */
  ghost predicate EnrolledAt(sh: Shop, steps: seq<Step>, k: nat, first: seq<Event>)
    requires k < |steps|
  {
    var lite := Run(sh, steps).world.lite;
    Enrols(steps[k])
    && IsBaseline(first, lite.code, Run(sh, steps[..k]).stock, EnrolmentOf(Run(sh, steps[..k]), steps[k]))
    && 1 <= |first| <= |lite.events|
    && (forall i :: 0 <= i < |first| ==>
        N.SameFrozen(first[i], lite.events[i]) && lite.events[i].aggregate == InitialInventory)
    && T.NoLaterBaseline(lite.events, |first|)
  }

  lemma JustEnrolled(sh: Shop, steps: seq<Step>)
    requires Start(sh) && steps != [] && Run(sh, steps).world.lite.events != []
    requires Run(sh, steps[..|steps| - 1]).world.lite.events == []
    ensures EnrolledAt(sh, steps, |steps| - 1, Run(sh, steps).world.lite.events)
  {
    hide N.Valid, S.Valid, Next, IsBaseline, EnrolmentOf, S.Start, N.Start;
    var init, s := steps[..|steps| - 1], steps[|steps| - 1];
    var before := Run(sh, init);
    JointRunIsValid(sh, init);
    if !Enrols(s) {
      OthersStayEmpty(before, s);
      assert false;
    }
    EnrolmentListsStock(before, s);
    FirstAreBaseline(before, s);
    T.NothingLater(Run(sh, steps).world.lite.events);
    assert steps[..|steps| - 1] == init;
  }

  /** The first events are all of the baseline. */
  lemma FirstAreBaseline(sh: Shop, s: Step)
    requires N.Valid(sh.world) && sh.world.lite.events == [] && Enrols(s)
    ensures forall e <- Next(sh, s).world.lite.events :: e.aggregate == InitialInventory
  {
    hide N.Valid, N.Apply, RowsOf;
    var step := NetPart(sh, s)[0];
    T.StepAddsOnly(sh.world, step);
    forall e <- Next(sh, s).world.lite.events
      ensures e.aggregate == InitialInventory
    {
      var i :| 0 <= i < |Next(sh, s).world.lite.events| && Next(sh, s).world.lite.events[i] == e;
      assert T.MayQueue(step, Next(sh, s).world.lite.events[i].aggregate);
    }
  }

  lemma StillEnrolled(sh: Shop, steps: seq<Step>, k: nat, first: seq<Event>)
    requires Start(sh) && steps != [] && k < |steps| - 1
    requires EnrolledAt(sh, steps[..|steps| - 1], k, first)
    ensures EnrolledAt(sh, steps, k, first)
  {
    hide N.Valid, S.Valid, Next, IsBaseline, S.Start, N.Start, T.NoLaterBaseline, EnrolmentOf;
    var init, s := steps[..|steps| - 1], steps[|steps| - 1];
    assert init[..k] == steps[..k] && init[k] == steps[k];
    var before := Run(sh, init);
    JointRunIsValid(sh, init);
    NextIsLater(before, s);
    T.LaterStep(before.world.lite.events, Next(before, s).world.lite.events, |first|);
  }

  lemma NextIsLater(sh: Shop, s: Step)
    requires N.Valid(sh.world) && sh.world.lite.events != []
    ensures Next(sh, s).world.lite.code == sh.world.lite.code
    ensures |sh.world.lite.events| <= |Next(sh, s).world.lite.events|
    ensures forall i :: 0 <= i < |sh.world.lite.events| ==>
            N.SameFrozen(sh.world.lite.events[i], Next(sh, s).world.lite.events[i])
    ensures T.NoLaterBaseline(Next(sh, s).world.lite.events, |sh.world.lite.events|)
  {
    hide N.Valid, Attempt, NetPart, N.Run, T.NoLaterBaseline;
    StepExtends(sh, s);
    if Attempt(sh, s).Some? {
      NetPartIs(sh, s);
      T.RunQueuesNoBaseline(sh.world, NetPart(sh, s));
    } else {
      T.NothingLater(sh.world.lite.events);
    }
  }

  /**
   In every joint run with a non-empty outbox, the first events are the baseline of some step of the
   run: together they hold one snapshot of each unit that was in use and unassigned or in stock at
   that moment, and no other; they carry the code in use; and no later event is a baseline.
   */
  lemma BaselineOfRun(sh: Shop, steps: seq<Step>) returns (k: nat, first: seq<Event>)
    requires Start(sh) && Run(sh, steps).world.lite.events != []
    ensures k < |steps| && EnrolledAt(sh, steps, k, first)
    ensures var stock := Run(sh, steps[..k]).stock;
            DraftBatches.Distinct(BaselineIds(stock.serials, stock.nextId))
            && forall i :: i in BaselineIds(stock.serials, stock.nextId) <==>
                           i in stock.serials && IsBaselineUnit(stock.serials[i])
    decreases |steps|
  {
    k, first := FirstEnrolment(sh, steps);
    EveryUnitListed(sh, steps[..k]);
  }

  lemma EveryUnitListed(sh: Shop, steps: seq<Step>)
    requires Start(sh)
    ensures var stock := Run(sh, steps).stock;
            DraftBatches.Distinct(BaselineIds(stock.serials, stock.nextId))
            && forall i :: i in BaselineIds(stock.serials, stock.nextId) <==>
                           i in stock.serials && IsBaselineUnit(stock.serials[i])
  {
    hide Run, S.Valid, N.Valid, IsBaselineUnit, BaselineIds, SnapshotsOf, RowsBelow, BaselineItems;
    JointRunIsValid(sh, steps);
    var stock := Run(sh, steps).stock;
    StockTheorems.FreshIds(stock, S.Retired(sh.stock));
    BaselineListsUnits(stock.serials, (s: Serial) => Null, stock.nextId);
  }

  lemma {:induction false} FirstEnrolment(sh: Shop, steps: seq<Step>) returns (k: nat, first: seq<Event>)
    requires Start(sh) && Run(sh, steps).world.lite.events != []
    ensures k < |steps| && EnrolledAt(sh, steps, k, first)
    decreases |steps|
  {
    hide Next, EnrolledAt;
    var init := steps[..|steps| - 1];
    if Run(sh, init).world.lite.events == [] {
      JustEnrolled(sh, steps);
      k, first := |steps| - 1, Run(sh, steps).world.lite.events;
    } else {
      k, first := FirstEnrolment(sh, init);
      StillEnrolled(sh, steps, k, first);
    }
  }

  // ----- The event of a submitted batch -----

  /** At step `k` the batch was submitted, and the event then frozen is the one at place `i`. */
  ghost predicate SubmittedAt(sh: Shop, steps: seq<Step>, b: nat, k: nat, i: nat)
    requires k < |steps|
  {
    var before, now := Run(sh, steps[..k]), Run(sh, steps).world.lite.events;
    var s := steps[k];
    s.Submitting? && s.b == b && DraftBatches.IsOpen(before.stock, b) && ConfiguredCode(before.world.lite.code).Some?
    && i < |now|
    && N.SameFrozen(BatchEvents.SubmissionEvent(before.stock, before.world.lite, b, s.header, s.itemSnapshot), now[i])
  }

  lemma OtherStepsKeepFlags(sh: Shop, s: Step, retired: set<nat>)
    requires S.Valid(sh.stock, retired) && !s.Submitting? && !s.Opening?
    ensures SameDraftFlags(sh.stock.batches, Next(sh, s).stock.batches)
  {
    hide S.Valid, N.Apply, RowsOf, S.Next, SameDraftFlags;
    SameFlags(sh.stock.batches);
    if s.Moving? || s.Transferring? || s.Applying? {
      hide Attempt;
      if Attempt(sh, s).Some? {
        QueueingKeepsBatches(sh, retired, s);
      }
    } else if s.Stocking? {
      if QueuesNothing(s.call) {
        StockingKeepsDrafts(sh.stock, s.call);
      }
    }
  }

  lemma SameFlags(batches: map<nat, Batch>)
    ensures SameDraftFlags(batches, batches)
  {
  }

  lemma OpeningFlags(sh: Shop, s: Step)
    requires s.Opening?
    ensures forall b :: b in Next(sh, s).stock.batches && !Next(sh, s).stock.batches[b].draft ==>
              b in sh.stock.batches && !sh.stock.batches[b].draft
  {
    hide Attempt;
    if Attempt(sh, s).Some? {
      OpeningIs(sh, s);
    }
  }

  lemma SubmittingFlags(sh: Shop, s: Step)
    requires s.Submitting?
    ensures Attempt(sh, s).None? ==> Next(sh, s) == sh
    ensures forall b :: b in Next(sh, s).stock.batches && !Next(sh, s).stock.batches[b].draft ==>
              b == s.b || (b in sh.stock.batches && !sh.stock.batches[b].draft)
  {
    hide Attempt, DraftBatches.ApplyItems, ConfiguredCode, SubmitBatch, DraftBatches.Complete,
         DraftBatches.AllAdmissible, BatchEvents.BatchRequest, BatchEvents.ItemSnapshots;
    if Attempt(sh, s).Some? {
      SubmittingIs(sh, s);
    }
  }

  lemma JustSubmitted(sh: Shop, s: Step, b: nat, retired: set<nat>)
    requires S.Valid(sh.stock, retired)
    requires b in Next(sh, s).stock.batches && !Next(sh, s).stock.batches[b].draft
    requires b !in sh.stock.batches || sh.stock.batches[b].draft
    ensures s.Submitting? && s.b == b && Attempt(sh, s).Some?
  {
    hide S.Valid, Next, Attempt;
    if s.Submitting? {
      SubmittingFlags(sh, s);
    } else if s.Opening? {
      OpeningFlags(sh, s);
    } else {
      OtherStepsKeepFlags(sh, s, retired);
    }
  }

  lemma SubmissionQueued(sh: Shop, s: Step, retired: set<nat>)
    requires S.Valid(sh.stock, retired) && s.Submitting? && Attempt(sh, s).Some?
    ensures DraftBatches.IsOpen(sh.stock, s.b) && ConfiguredCode(sh.world.lite.code).Some?
    ensures Next(sh, s).world.lite.events
         == sh.world.lite.events + [BatchEvents.SubmissionEvent(sh.stock, sh.world.lite, s.b, s.header, s.itemSnapshot)]
  {
    hide Attempt, S.Valid, ConfiguredCode, SubmitBatch, DraftBatches.Submit, DraftBatches.Distinct,
         BatchEvents.SubmissionEvent, BatchEvents.BatchRequest, BatchEvents.ItemSnapshots;
    SubmittingIs(sh, s);
    BatchEvents.SubmittedWasOpen(sh.stock, s.b, s.checks);
    S.OpenIsDistinct(sh.stock, retired, s.b);
    BatchEvents.SubmissionIsReported(sh.stock, sh.world.lite, s.b, s.checks, s.header, s.itemSnapshot);
  }

  lemma StillSubmitted(sh: Shop, steps: seq<Step>, b: nat, k: nat, i: nat)
    requires Start(sh) && steps != [] && k < |steps| - 1 && SubmittedAt(sh, steps[..|steps| - 1], b, k, i)
    ensures SubmittedAt(sh, steps, b, k, i)
  {
    hide N.Valid, S.Valid, Next, S.Start, N.Start, ConfiguredCode, BatchEvents.SubmissionEvent;
    var init := steps[..|steps| - 1];
    assert init[..k] == steps[..k] && init[k] == steps[k];
    JointRunIsValid(sh, init);
    StepExtends(Run(sh, init), steps[|steps| - 1]);
  }

  /**
   In every joint run, the event of a submitted batch is the one its submission froze: its items are
   the snapshots of exactly the units that were in the batch then, in scan order, as submitted.
   */
  lemma {:induction false} SubmissionOfRun(sh: Shop, steps: seq<Step>, b: nat) returns (k: nat, i: nat)
    requires Start(sh) && IsSubmitted(Run(sh, steps), b)
    ensures k < |steps| && SubmittedAt(sh, steps, b, k, i)
    decreases |steps|
  {
    hide Run, Next, SubmittedAt, S.Start, N.Start;
    if steps == [] {
      NoBatchesAtFirst(sh, b);
      assert false;
    } else {
      var init := steps[..|steps| - 1];
      if IsSubmitted(Run(sh, init), b) {
        k, i := SubmissionOfRun(sh, init, b);
        StillSubmitted(sh, steps, b, k, i);
      } else {
        k := |steps| - 1;
        i := NewlySubmitted(sh, steps, b);
      }
    }
  }

  predicate IsSubmitted(sh: Shop, b: nat) {
    b in sh.stock.batches && !sh.stock.batches[b].draft
  }

  lemma NewlySubmitted(sh: Shop, steps: seq<Step>, b: nat) returns (i: nat)
    requires Start(sh) && steps != [] && IsSubmitted(Run(sh, steps), b)
         && !IsSubmitted(Run(sh, steps[..|steps| - 1]), b)
    ensures SubmittedAt(sh, steps, b, |steps| - 1, i)
  {
    hide Next, SubmittedAt, S.Start, N.Start, S.Valid, N.Valid, ConfiguredCode, BatchEvents.SubmissionEvent,
         DraftBatches.IsOpen, Attempt;
    var init, s := steps[..|steps| - 1], steps[|steps| - 1];
    JointRunIsValid(sh, init);
    JustSubmitted(Run(sh, init), s, b, S.Retired(sh.stock));
    SubmissionQueued(Run(sh, init), s, S.Retired(sh.stock));
    i := |Run(sh, init).world.lite.events|;
    NewestSubmission(sh, steps);
  }

  lemma NoBatchesAtFirst(sh: Shop, b: nat)
    requires Start(sh)
    ensures !IsSubmitted(Run(sh, []), b)
  {
  }

  lemma NewestSubmission(sh: Shop, steps: seq<Step>)
    requires steps != [] && steps[|steps| - 1].Submitting?
    requires var before, s := Run(sh, steps[..|steps| - 1]), steps[|steps| - 1];
             DraftBatches.IsOpen(before.stock, s.b) && ConfiguredCode(before.world.lite.code).Some?
             && Next(before, s).world.lite.events
                == before.world.lite.events
                   + [BatchEvents.SubmissionEvent(before.stock, before.world.lite, s.b, s.header, s.itemSnapshot)]
    ensures SubmittedAt(sh, steps, steps[|steps| - 1].b, |steps| - 1, |Run(sh, steps[..|steps| - 1]).world.lite.events|)
  {
    hide Next, ConfiguredCode, BatchEvents.SubmissionEvent;
  }

  /**
   In every joint run, a batch whose stock has moved has exactly one event in the outbox, and a
   batch whose stock has not moved has none.
   */
  lemma MovedExactlyWhenReported(sh: Shop, steps: seq<Step>, b: nat)
    requires Start(sh) && b in Run(sh, steps).stock.batches
    ensures var now := Run(sh, steps);
            |T.EventsOf(now.world.lite.events, b)| == if now.stock.batches[b].draft then 0 else 1
  {
    hide N.Run, S.Run, Run, T.EventsOf;
    RunKeepsCoupled(sh, steps);
    JointRunsProject(sh, steps);
    T.BatchesReportedOnce(sh.world, NetTrace(sh, steps), b);
  }

  // ----- Every applied replacement is reported exactly once -----

  /** The commands whose replacements the outbox reports, in order. */
  ghost function ReportedIds(events: seq<Event>): seq<string> {
    if events == [] then []
    else
      var e := events[|events| - 1];
      ReportedIds(events[..|events| - 1]) + if e.aggregate == QrReplacement then [e.aggregateId] else []
  }

  lemma {:induction false} SameReports(events: seq<Event>, more: seq<Event>)
    requires |events| <= |more| && forall i :: 0 <= i < |events| ==> N.SameFrozen(events[i], more[i])
    requires forall i :: |events| <= i < |more| ==> more[i].aggregate != QrReplacement
    ensures ReportedIds(more) == ReportedIds(events)
    decreases |more|
  {
    if more != [] {
      if |events| < |more| {
        SameReports(events, more[..|more| - 1]);
      } else {
        SameReports(events[..|events| - 1], more[..|more| - 1]);
      }
    }
  }

  lemma NetStepReports(w: World, s: N.Step)
    requires N.Valid(w) && !T.MayQueue(s, QrReplacement)
    ensures ReportedIds(N.Apply(w, s).lite.events) == ReportedIds(w.lite.events)
  {
    hide N.Valid, N.Apply, N.SameFrozen;
    T.StepExtends(w, s);
    T.StepAddsOnly(w, s);
    SameReports(w.lite.events, N.Apply(w, s).lite.events);
  }

  lemma {:induction false} NetRunReports(w: World, steps: seq<N.Step>)
    requires N.Valid(w) && forall s <- steps :: !T.MayQueue(s, QrReplacement)
    ensures ReportedIds(N.Run(w, steps).lite.events) == ReportedIds(w.lite.events)
    decreases |steps|
  {
    hide N.Valid, N.Apply, T.MayQueue, ReportedIds;
    if steps != [] {
      var init := steps[..|steps| - 1];
      assert steps[|steps| - 1] in steps && forall s <- init :: s in steps;
      NetRunReports(w, init);
      T.RunFromKeepsValid(w, init);
      NetStepReports(N.Run(w, init), steps[|steps| - 1]);
    }
  }

  lemma PartReportsNot(sh: Shop, s: Step)
    requires Attempt(sh, s).Some? && (s.Applying? ==> s.command.kind != "QR_REPLACE")
    ensures forall step <- NetPart(sh, s) :: !T.MayQueue(step, QrReplacement)
  {
    hide Attempt, NetPart;
    if s.Applying? {
      AppliedEvent(sh, s);
    } else if s.Moving? {
      MovingQueues(sh, s);
    } else {
      OnePart(sh, s);
    }
  }

  lemma EnqueueReports(lite: Lite, r: Request)
    requires Enqueue(lite, r).Some? && r.aggregate == QrReplacement
    ensures ReportedIds(Enqueue(lite, r).value.events) == ReportedIds(lite.events) + [r.aggregateId]
  {
    hide Enqueue;
    BatchEvents.EnqueueIsSnoc(lite, r);
    var e := Frozen(r, |lite.events| + 1);
    assert (lite.events + [e])[..|lite.events|] == lite.events;
  }

  ghost function ReplaceId(sh: Shop, s: Step): seq<string> {
    if s.Applying? && s.command.kind == "QR_REPLACE" && Attempt(sh, s).Some? then [s.command.id] else []
  }

  lemma StepReports(sh: Shop, s: Step)
    requires N.Valid(sh.world)
    ensures ReportedIds(Next(sh, s).world.lite.events) == ReportedIds(sh.world.lite.events) + ReplaceId(sh, s)
  {
    hide N.Valid, Attempt, NetPart, N.Run, ReportedIds, T.MayQueue;
    if Attempt(sh, s).Some? {
      if s.Applying? && s.command.kind == "QR_REPLACE" {
        ReplacementReports(sh, s);
      } else {
        NetPartIs(sh, s);
        PartReportsNot(sh, s);
        NetRunReports(sh.world, NetPart(sh, s));
      }
    }
  }

  lemma ReplacementReports(sh: Shop, s: Step)
    requires s.Applying? && s.command.kind == "QR_REPLACE" && Attempt(sh, s).Some?
    ensures ReportedIds(Attempt(sh, s).value.world.lite.events) == ReportedIds(sh.world.lite.events) + [s.command.id]
  {
    hide Attempt, QrCommands.Dispatch, QrCommands.EventOf, Enqueue, ReportedIds;
    var app := QrCommands.App(sh.stock, sh.world.lite);
    ApplyingIs(sh, s);
    QrCommands.AppliedQueues(s.env, app, s.command);
    EnqueueReports(sh.world.lite, QrCommands.EventOf(s.env, app, s.command).value);
  }

  // ----- Polls among the node's own calls -----

  function HandlerOf(env: QrCommands.Surroundings): Inbox.Handler<Shop> {
    (sh: Shop, c: Inbox.Command) => Handle(env, sh, c)
  }

  /** The node's own calls; commands are applied by polls only. */
  function LocalOf(): Inbox.LocalCall<Shop, Step> {
    (sh: Shop, s: Step) => if s.Applying? then sh else Next(sh, s)
  }

  /** The joint steps a history of commands and calls amounts to. */
  ghost function StepsOf(env: QrCommands.Surroundings, acts: seq<Inbox.Act<Step>>): seq<Step> {
    if acts == [] then []
    else
      var last := acts[|acts| - 1];
      StepsOf(env, acts[..|acts| - 1])
      + match last
        case Did(c) => [Applying(env, c)]
        case Called(s) => if s.Applying? then [] else [s]
  }

  lemma RunSnoc(sh: Shop, steps: seq<Step>, s: Step)
    ensures Run(sh, steps + [s]) == Next(Run(sh, steps), s)
  {
    hide Next;
    assert (steps + [s])[..|steps|] == steps;
  }

  lemma {:induction false} ReplayIsRun(env: QrCommands.Surroundings, sh: Shop, acts: seq<Inbox.Act<Step>>)
    requires Inbox.NoneRaised(HandlerOf(env), LocalOf(), sh, acts)
    ensures Inbox.Replay(HandlerOf(env), LocalOf(), sh, acts) == Run(sh, StepsOf(env, acts))
    decreases |acts|
  {
    hide Next, Handle, Run;
    if acts == [] {
      assert Run(sh, []) == sh by { NothingRun(sh); }
    } else {
      var init := acts[..|acts| - 1];
      ReplayIsRun(env, sh, init);
      var before := Run(sh, StepsOf(env, init));
      match acts[|acts| - 1]
      case Did(c) =>
        RunSnoc(sh, StepsOf(env, init), Applying(env, c));
        AppliedIsNext(env, before, c);
      case Called(s) =>
        if s.Applying? {
          assert StepsOf(env, init) + [] == StepsOf(env, init);
        } else {
          RunSnoc(sh, StepsOf(env, init), s);
        }
    }
  }

  lemma NothingRun(sh: Shop)
    ensures Run(sh, []) == sh
  {
  }

  lemma AppliedIsNext(env: QrCommands.Surroundings, sh: Shop, c: Inbox.Command)
    requires Handle(env, sh, c).Done?
    ensures Attempt(sh, Applying(env, c)) == Some(Handle(env, sh, c).after)
    ensures Next(sh, Applying(env, c)) == Handle(env, sh, c).after
  {
    hide Handle;
  }

  /**
   Every run of the node with its polls is a joint run: whatever is listed again, lost or refused, the
   node is where its own calls and the distinct commands applied, each once and in order, take it.
   */
  lemma PolledRunsAreJointRuns(env: QrCommands.Surroundings, x: Inbox.Exchange<Shop>, steps: seq<Inbox.Step<Step>>)
    requires Inbox.Fresh(x)
    ensures var st, acts := Inbox.RunSteps(HandlerOf(env), LocalOf(), x, steps).hub.state,
                            Inbox.History(HandlerOf(env), LocalOf(), x, steps);
            st.app == Run(x.hub.state.app, StepsOf(env, acts)) && Inbox.CommandsOf(acts) == st.applied
  {
    hide Inbox.RunSteps, Inbox.History, Inbox.Replay, Inbox.NoneRaised, Inbox.CommandsOf, Run, StepsOf;
    Inbox.RunIsReplay(HandlerOf(env), LocalOf(), x, steps);
    ReplayIsRun(env, x.hub.state.app, Inbox.History(HandlerOf(env), LocalOf(), x, steps));
  }

  /** The replacement commands among those applied, in order. */
  ghost function ReplaceIds(commands: seq<Inbox.Command>): seq<string> {
    if commands == [] then []
    else
      var c := commands[|commands| - 1];
      ReplaceIds(commands[..|commands| - 1]) + if c.kind == "QR_REPLACE" then [c.id] else []
  }

  lemma ReplaceIdsSnoc(commands: seq<Inbox.Command>, c: Inbox.Command)
    ensures ReplaceIds(commands + [c]) == ReplaceIds(commands) + if c.kind == "QR_REPLACE" then [c.id] else []
  {
    assert (commands + [c])[..|commands|] == commands;
  }

  lemma {:induction false} ReplayReports(env: QrCommands.Surroundings, sh: Shop, acts: seq<Inbox.Act<Step>>)
    requires N.Valid(sh.world) && Inbox.NoneRaised(HandlerOf(env), LocalOf(), sh, acts)
    ensures ReportedIds(Run(sh, StepsOf(env, acts)).world.lite.events)
         == ReportedIds(sh.world.lite.events) + ReplaceIds(Inbox.CommandsOf(acts))
    ensures N.Valid(Run(sh, StepsOf(env, acts)).world)
    decreases |acts|
  {
    hide Next, Handle, Run, ReportedIds, N.Valid, ReplaceIds, Attempt;
    if acts == [] {
      NothingRun(sh);
      assert ReplaceIds([]) == [] by { NoReplacements(); }
    } else {
      var init := acts[..|acts| - 1];
      ReplayReports(env, sh, init);
      ReplayIsRun(env, sh, init);
      var before := Run(sh, StepsOf(env, init));
      match acts[|acts| - 1]
      case Did(c) =>
        RunSnoc(sh, StepsOf(env, init), Applying(env, c));
        AppliedIsNext(env, before, c);
        StepReports(before, Applying(env, c));
        StepExtends(before, Applying(env, c));
        ReplaceIdsSnoc(Inbox.CommandsOf(init), c);
      case Called(s) =>
        assert Inbox.CommandsOf(init) + [] == Inbox.CommandsOf(init);
        if s.Applying? {
          assert StepsOf(env, init) + [] == StepsOf(env, init);
        } else {
          RunSnoc(sh, StepsOf(env, init), s);
          StepReports(before, s);
          StepExtends(before, s);
        }
    }
  }

  lemma NoReplacements()
    ensures ReplaceIds([]) == []
  {
  }

  /**
   Whatever is replayed, lost or refused, and whatever the node does between polls, the outbox reports
   each applied replacement once and nothing else as one: its replacement events name, in order,
   exactly the replacement commands that have been applied.
   */
  lemma EachReplacementReportedOnce(env: QrCommands.Surroundings, x: Inbox.Exchange<Shop>, steps: seq<Inbox.Step<Step>>)
    requires Inbox.Fresh(x) && Start(x.hub.state.app)
    ensures var st := Inbox.RunSteps(HandlerOf(env), LocalOf(), x, steps).hub.state;
            ReportedIds(st.app.world.lite.events) == ReplaceIds(st.applied)
  {
    hide Inbox.RunSteps, Inbox.History, Inbox.Replay, Inbox.NoneRaised, Inbox.CommandsOf, Run, StepsOf, ReplaceIds,
         N.Valid;
    var acts := Inbox.History(HandlerOf(env), LocalOf(), x, steps);
    Inbox.RunIsReplay(HandlerOf(env), LocalOf(), x, steps);
    PolledRunsAreJointRuns(env, x, steps);
    N.StartIsValid(x.hub.state.app.world);
    ReplayReports(env, x.hub.state.app, acts);
    assert ReportedIds([]) == [];
  }
}
