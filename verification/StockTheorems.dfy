/** What holds in every run of the stock machine. */
module StockTheorems {
  import opened Options
  import opened StockTypes
  import opened Fefo
  import opened DraftBatches
  import opened StockLedger
  import opened Relocation
  import opened RelocationEffects
  import opened Replacement
  import opened StockRuns
  import opened Transfers

  // ----- Submission meets no conflict -----

  /** The label is in use and, unless the batch is an audit, its unit is not on its way elsewhere. */
  predicate Present(s: Serial, kind: BatchType) {
    s.active && (s.status == InTransit ==> kind == Audit)
  }

  predicate AllPresent(serials: Serials, batch: Batch) {
    forall i <- batch.items :: i in serials && Present(serials[i], batch.kind)
  }

  /**
   In every run, an open batch is submitted exactly when it is complete, no label in it is out of
   use and no unit in it has been sent to another franchise; the effect is always the whole batch.
   Neither the re-check of statuses nor the conditional update ever refuses a batch for anything
   another batch, a removal, a return or a move has done.
   */
  lemma SubmissionMeetsNoConflict(start: Stock, steps: seq<Step>, b: nat, checks: bool)
    requires Start(start) && IsOpen(Run(start, steps), b)
    ensures var st := Run(start, steps);
            var batch := st.batches[b];
            Submit(st, b, checks) ==
            if Complete(batch, checks) && AllPresent(st.serials, batch)
            then Some(Stock(Shifted(st.serials, batch, batch.items), st.nextId, st.batches[b := batch.(draft := false)],
                            st.ledger + Rows(st.serials, batch, batch.items)))
            else None
  {
    hide Run, Valid, Shifted, Rows, Admissible, Distinct, Present, Complete;
    var st := Run(start, steps);
    RunKeepsValid(start, steps);
    OpenIsDistinct(st, Retired(start), b);
    SubmitExactly(st, b, checks);
    var batch := st.batches[b];
    forall i | i in batch.items
      ensures i in st.serials && (Admissible(st.serials[i], batch.kind) <==> Present(st.serials[i], batch.kind))
    {
      PresentIsAdmissible(st.serials, batch, i);
    }
  }

  lemma PresentIsAdmissible(serials: Serials, batch: Batch, i: nat)
    requires batch.draft && BatchOk(serials, batch) && i in batch.items
    ensures i in serials && (Admissible(serials[i], batch.kind) <==> Present(serials[i], batch.kind))
  {
  }

  /** In every run, a serial is in at most one open batch, and there only once. */
  lemma OneOpenBatchPerSerial(start: Stock, steps: seq<Step>, b: nat, c: nat, i: nat)
    requires Start(start) && IsOpen(Run(start, steps), b) && IsOpen(Run(start, steps), c)
    requires i in Run(start, steps).batches[b].items && i in Run(start, steps).batches[c].items
    ensures b == c && Distinct(Run(start, steps).batches[b].items)
  {
    hide Run, LedgerOk, Labelled, ItemFits, VerifiedAreItems;
    var st := Run(start, steps);
    RunKeepsValid(start, steps);
    assert BatchOk(st.serials, st.batches[b]);
    assert b != c ==> Disjoint(st.batches[b], st.batches[c]);
  }

  // ----- What a step does to the rows of the serials -----

  lemma SubmitKeepsRows(st: Stock, retired: set<nat>, b: nat, checks: bool)
    requires Valid(st, retired) && Submit(st, b, checks).Some?
    ensures SameLabels(st.serials, Submit(st, b, checks).value.serials)
  {
    hide Valid, AllAdmissible, Shifted, Rows, Distinct;
    OpenIsDistinct(st, retired, b);
    SubmitExactly(st, b, checks);
    ShiftedSameLabels(st.serials, st.batches[b]);
  }

  lemma RelocateKeepsRows(st: Stock, locations: map<nat, Location>, destination: nat, items: seq<MoveItem>)
    requires RelocateStock(st, locations, destination, items).Some?
    ensures SameLabels(st.serials, RelocateStock(st, locations, destination, items).value.serials)
  {
    hide Relocate, Plan;
    RelocateExactly(st, locations, destination, items);
  }

  /** Steps that add rows, or change what rows say or whether they are in use. */
  predicate IsLabelStep(s: Step) {
    s.Allocating? || s.Replacing? || s.Confirming? || s.Arriving?
  }

  lemma DispatchKeepsRows(st: Stock, ids: seq<nat>)
    requires DispatchUnits(st, ids).Some?
    ensures MayMove(st.serials, ids, InStock)
    ensures DispatchUnits(st, ids).value.serials == Restatused(st.serials, ids, InTransit)
    ensures SameLabels(st.serials, DispatchUnits(st, ids).value.serials)
  {
    hide ClaimEach, MayMove, Restatused, TransferRows;
    ClaimEachExactly(st.serials, ids, InStock, InTransit);
    RestatusedSameLabels(st.serials, ids, InStock, InTransit);
  }

  lemma ReceiveKeepsRows(st: Stock, ids: seq<nat>)
    requires ReceiveUnits(st, ids).Some?
    ensures MayMove(st.serials, ids, InTransit)
    ensures ReceiveUnits(st, ids).value.serials == Restatused(st.serials, ids, InStock)
    ensures SameLabels(st.serials, ReceiveUnits(st, ids).value.serials)
  {
    hide ClaimEach, MayMove, Restatused, TransferRows;
    ClaimEachExactly(st.serials, ids, InTransit, InStock);
    RestatusedSameLabels(st.serials, ids, InTransit, InStock);
  }

  /** Batches, shelves, moves, dispatches and receipts never touch what a label says, or whether it is in use. */
  lemma OtherStepsKeepRows(st: Stock, retired: set<nat>, s: Step)
    requires Valid(st, retired) && !IsLabelStep(s)
    ensures SameLabels(st.serials, Next(st, s).serials)
  {
    hide Valid, Scan, FefoPick, Submit, RelocateStock, SaleReturnScan, RemoveItem, SaleReturnShelf, ShelfVerify,
         Candidates, DispatchUnits, ReceiveUnits;
    if Attempt(st, s).Some? {
      match s
      case Creating(b, kind, reason) =>
      case Scanning(b, text, allowed) => ScanKeepsRows(st, b, text, allowed);
      case Picking(b, product, quantity) => PickKeepsRows(st, b, product, quantity);
      case Removing(b, i) => RemoveKeepsRows(st, b, i);
      case ReturnScanning(b, text) => ReturnScanKeepsRows(st, b, text);
      case ReturnShelving(b, location, warehouse) => ReturnShelfKeepsRows(st, b, location, warehouse);
      case Verifying(b, location, warehouse) => VerifyKeepsRows(st, b, location, warehouse);
      case Submitting(b, checks) => SubmitKeepsRows(st, retired, b, checks);
      case Relocating(locations, destination, items) => RelocateKeepsRows(st, locations, destination, items);
      case Dispatching(ids) => DispatchKeepsRows(st, ids);
      case Receiving(ids) => ReceiveKeepsRows(st, ids);
    }
  }

  lemma ScanKeepsRows(st: Stock, b: nat, text: string, allowed: bool)
    requires Scan(st, b, text, allowed).Some?
    ensures Scan(st, b, text, allowed).value.serials == st.serials
  {
    hide FefoAllows, Admissible, Normalize, InOtherDraft;
  }

  lemma PickKeepsRows(st: Stock, b: nat, product: nat, quantity: int)
    requires FefoPick(st, b, product, quantity).Some?
    ensures FefoPick(st, b, product, quantity).value.serials == st.serials
  {
    hide Candidates;
  }

  lemma RemoveKeepsRows(st: Stock, b: nat, i: nat)
    requires RemoveItem(st, b, i).Some?
    ensures RemoveItem(st, b, i).value.serials == st.serials
  {
  }

  lemma ReturnScanKeepsRows(st: Stock, b: nat, text: string)
    requires SaleReturnScan(st, b, text).Some?
    ensures SaleReturnScan(st, b, text).value.serials == st.serials
  {
    hide Normalize;
  }

  lemma ReturnShelfKeepsRows(st: Stock, b: nat, location: nat, warehouse: string)
    requires SaleReturnShelf(st, b, location, warehouse).Some?
    ensures SameLabels(st.serials, SaleReturnShelf(st, b, location, warehouse).value.serials)
  {
  }

  lemma VerifyKeepsRows(st: Stock, b: nat, location: nat, warehouse: string)
    requires ShelfVerify(st, b, location, warehouse).Some?
    ensures SameLabels(st.serials, ShelfVerify(st, b, location, warehouse).value.serials)
  {
    hide Unverified;
  }

  // ----- Arrivals, row by row -----

  /** What one line of a manifest does: a new row under the next id, or the return of one that was away. */
  lemma ArriveOneAt(st: Stock, a: Arrival, now: int)
    requires ArriveOne(st, a, now).Some? && Bounded(st.serials, st.nextId)
    ensures var after := ArriveOne(st, a, now).value;
            after.batches == st.batches && after.ledger == st.ledger && Bounded(after.serials, after.nextId)
            && (forall i :: i in st.serials ==>
                  i in after.serials
                  && after.serials[i]
                     == if Lookup(st.serials, a.number) == Some(i) then Reactivated(st.serials[i], a)
                        else st.serials[i])
            && (forall i :: i in after.serials && i !in st.serials ==>
                  Lookup(st.serials, a.number).None? && i == st.nextId && after.serials[i] == ArrivingSerial(a, now))
  {
  }

  lemma LookupUnique(serials: Serials, i: nat)
    requires UniqueNumbers(serials) && i in serials
    ensures Lookup(serials, serials[i].number) == Some(i)
  {
  }

  /** The manifest line that names this number, if any. */
  ghost function LineFor(manifest: seq<Arrival>, number: string): Option<Arrival> {
    if manifest == [] then None
    else if manifest[|manifest| - 1].number == number then Some(manifest[|manifest| - 1])
    else LineFor(manifest[..|manifest| - 1], number)
  }

  lemma {:induction false} LineForMember(manifest: seq<Arrival>, number: string)
    ensures LineFor(manifest, number).Some? ==>
            LineFor(manifest, number).value in manifest && LineFor(manifest, number).value.number == number
    ensures LineFor(manifest, number).None? ==> forall a <- manifest :: a.number != number
    decreases |manifest|
  {
    if manifest != [] {
      var init := manifest[..|manifest| - 1];
      LineForMember(init, number);
      assert manifest == init + [manifest[|manifest| - 1]];
    }
  }

  lemma RepeatsInit(manifest: seq<Arrival>)
    requires manifest != [] && !RepeatsNumber(manifest)
    ensures !RepeatsNumber(manifest[..|manifest| - 1])
    ensures LineFor(manifest[..|manifest| - 1], manifest[|manifest| - 1].number).None?
  {
    var init, a := manifest[..|manifest| - 1], manifest[|manifest| - 1];
    assert forall j, k :: 0 <= j < k < |init| ==>
        init[j].number == manifest[j].number && init[k].number == manifest[k].number;
    LineForMember(init, a.number);
    forall c | c in init
      ensures c.number != a.number
    {
      var j :| 0 <= j < |init| && init[j] == c;
      assert manifest[j].number != manifest[|manifest| - 1].number;
    }
  }

  /** An old row changes exactly if the manifest names it, and then takes over the manifest's data. */
  lemma {:induction false} ArriveAllAt(st: Stock, retired: set<nat>, manifest: seq<Arrival>, now: int, i: nat)
    requires Valid(st, retired) && ArriveAll(st, manifest, now).Some? && !RepeatsNumber(manifest) && i in st.serials
    ensures var after, line := ArriveAll(st, manifest, now).value, LineFor(manifest, st.serials[i].number);
            i in after.serials
            && after.serials[i] == (if line.Some? then Reactivated(st.serials[i], line.value) else st.serials[i])
            && (line.Some? ==> Away(st.serials[i]))
    decreases |manifest|
  {
    hide ArriveOne, Valid, RepeatsNumber;
    if manifest != [] {
      var init, a := manifest[..|manifest| - 1], manifest[|manifest| - 1];
      RepeatsInit(manifest);
      ArriveAllAt(st, retired, init, now, i);
      ArriveAllKeepsValid(st, retired, init, now);
      var before := ArriveAll(st, init, now).value;
      NumbersOf(before, retired, i);
      ArriveOneAt(before, a, now);
      ArriveOneAway(before, a, now);
      assert before.serials[i].number == st.serials[i].number;
    }
  }

  lemma NumbersOf(st: Stock, retired: set<nat>, i: nat)
    requires Valid(st, retired) && i in st.serials
    ensures Bounded(st.serials, st.nextId)
    ensures forall number :: Lookup(st.serials, number) == Some(i) <==> number == st.serials[i].number
  {
    LookupUnique(st.serials, i);
  }

  lemma ArriveOneAway(st: Stock, a: Arrival, now: int)
    requires ArriveOne(st, a, now).Some?
    ensures Lookup(st.serials, a.number).Some? ==> Away(st.serials[Lookup(st.serials, a.number).value])
  {
  }

  /** New rows come from the manifest, unlinked and in use. */
  lemma {:induction false} ArriveAllNew(st: Stock, retired: set<nat>, manifest: seq<Arrival>, now: int, p: nat)
    requires Valid(st, retired) && ArriveAll(st, manifest, now).Some?
    requires p in ArriveAll(st, manifest, now).value.serials
    ensures p in st.serials || ArriveAll(st, manifest, now).value.serials[p].replacedBy.None?
    ensures p in st.serials ==> ArriveAll(st, manifest, now).value.serials[p].replacedBy == st.serials[p].replacedBy
    decreases |manifest|
  {
    hide ArriveOne, Valid;
    if manifest != [] {
      var init, a := manifest[..|manifest| - 1], manifest[|manifest| - 1];
      ArriveAllKeepsValid(st, retired, init, now);
      var before := ArriveAll(st, init, now).value;
      FreshIds(before, retired);
      ArriveOneAt(before, a, now);
      if p in before.serials {
        ArriveAllNew(st, retired, init, now, p);
      } else {
        ArriveAllKeepsRows(st, retired, init, now, p);
      }
    }
  }

  lemma {:induction false} ArriveAllKeepsRows(st: Stock, retired: set<nat>, manifest: seq<Arrival>, now: int, p: nat)
    requires Valid(st, retired) && ArriveAll(st, manifest, now).Some?
    ensures p in st.serials ==> p in ArriveAll(st, manifest, now).value.serials
    decreases |manifest|
  {
    hide ArriveOne, Valid;
    if manifest != [] {
      var init := manifest[..|manifest| - 1];
      ArriveAllKeepsRows(st, retired, init, now, p);
      ArriveAllKeepsValid(st, retired, init, now);
      FreshIds(ArriveAll(st, init, now).value, retired);
      ArriveOneAt(ArriveAll(st, init, now).value, manifest[|manifest| - 1], now);
    }
  }

  // ----- What each step that changes labels does to one row -----

  lemma ReplaceAt(st: Stock, retired: set<nat>, oldNumber: string, newNumber: string, expected: SerialStatus, now: int,
      i: nat)
    requires Valid(st, retired) && Replace(st, oldNumber, newNumber, expected, now).Some? && i in st.serials
    ensures var after := Replace(st, oldNumber, newNumber, expected, now).value.serials;
            i in after
            && after[i]
               == (if Lookup(st.serials, oldNumber) == Some(i) then Retire(st.serials[i], st.nextId) else st.serials[i])
    ensures Lookup(st.serials, oldNumber) == Some(i) ==> st.serials[i].active
  {
    hide Valid, IsMasterSerial, Replaceable, NumberTaken, Successor;
    FreshId(st, retired, i);
  }

  lemma AllocateAt(st: Stock, retired: set<nat>, product: nat, labels: seq<Label>, now: int, i: nat)
    requires Valid(st, retired) && Allocate(st, product, labels, now).Some? && i in st.serials
    ensures i in Allocate(st, product, labels, now).value.serials
    ensures Allocate(st, product, labels, now).value.serials[i] == st.serials[i]
  {
    hide Valid, Allocated, LabelOk, NumberTaken, Repeats;
    FreshIds(st, retired);
    AllocatedRows(st.serials, st.nextId, product, labels, now);
  }

  lemma ConfirmAt(st: Stock, ids: seq<nat>, i: nat)
    requires Confirm(st, ids).Some? && i in st.serials
    ensures i in Confirm(st, ids).value.serials
    ensures Confirm(st, ids).value.serials[i] == if i in ids then st.serials[i].(active := false) else st.serials[i]
  {
  }

  lemma ArriveAt(st: Stock, retired: set<nat>, manifest: seq<Arrival>, now: int, i: nat)
    requires Valid(st, retired) && Arrive(st, manifest, now).Some? && i in st.serials
    ensures var after, line := Arrive(st, manifest, now).value, LineFor(manifest, st.serials[i].number);
            i in after.serials
            && after.serials[i] == (if line.Some? then Reactivated(st.serials[i], line.value) else st.serials[i])
            && (line.Some? ==> Away(st.serials[i]))
  {
    hide Valid, ArriveAll, RepeatsNumber, LineFor;
    ArriveAllAt(st, retired, manifest, now, i);
  }

  // ----- What takes a unit out of an open batch's reach -----

  /** A label goes out of use exactly when it is replaced, or its transfer is confirmed. */
  lemma OutOfUseExactly(st: Stock, retired: set<nat>, s: Step, i: nat)
    requires Valid(st, retired) && i in st.serials && st.serials[i].active
    ensures i in Next(st, s).serials
    ensures !Next(st, s).serials[i].active <==>
            Attempt(st, s).Some?
            && ((s.Replacing? && Lookup(st.serials, s.oldNumber) == Some(i)) || (s.Confirming? && i in s.ids))
  {
    hide Valid, Replace, Allocate, Arrive, Confirm, LineFor;
    if !IsLabelStep(s) {
      hide Next;
      OtherStepsKeepRows(st, retired, s);
    } else if Attempt(st, s).Some? {
      match s
      case Replacing(oldNumber, newNumber, expected, now) =>
        ReplaceAt(st, retired, oldNumber, newNumber, expected, now, i);
      case Allocating(product, labels, now) => AllocateAt(st, retired, product, labels, now, i);
      case Arriving(manifest, now) => ArriveAt(st, retired, manifest, now, i);
      case Confirming(ids) => ConfirmAt(st, ids, i);
    }
  }

  lemma TargetInTransit(batch: Batch, previous: SerialStatus)
    ensures previous != InTransit ==> Target(batch, previous) != InTransit
  {
  }

  /** A unit in use sets out exactly when a transfer dispatches it. */
  lemma SetsOutExactly(st: Stock, retired: set<nat>, s: Step, i: nat)
    requires Valid(st, retired) && i in st.serials && st.serials[i].active && st.serials[i].status != InTransit
    ensures i in Next(st, s).serials
    ensures Next(st, s).serials[i].status == InTransit <==> Attempt(st, s).Some? && s.Dispatching? && i in s.ids
  {
    hide Valid, Replace, Allocate, Arrive, Confirm, LineFor, DispatchUnits, ReceiveUnits, Submit, MayMove;
    if PlainStep(s) {
      hide Next;
      StatusUnchanged(st, s, i);
    } else if Attempt(st, s).Some? {
      match s
      case Replacing(oldNumber, newNumber, expected, now) =>
        ReplaceAt(st, retired, oldNumber, newNumber, expected, now, i);
      case Allocating(product, labels, now) => AllocateAt(st, retired, product, labels, now, i);
      case Arriving(manifest, now) => ArriveAt(st, retired, manifest, now, i);
      case Confirming(ids) => ConfirmAt(st, ids, i);
      case Dispatching(ids) => DispatchKeepsRows(st, ids);
      case Receiving(ids) => ReceiveKeepsRows(st, ids);
      case Submitting(b, checks) => SubmittedStatus(st, retired, b, checks, i);
    }
  }

  lemma SubmittedStatus(st: Stock, retired: set<nat>, b: nat, checks: bool, i: nat)
    requires Valid(st, retired) && Submit(st, b, checks).Some? && i in st.serials && st.serials[i].status != InTransit
    ensures i in Submit(st, b, checks).value.serials && Submit(st, b, checks).value.serials[i].status != InTransit
  {
    hide Valid, Distinct, Complete, AllAdmissible, Rows, Target;
    OpenIsDistinct(st, retired, b);
    SubmitExactly(st, b, checks);
    TargetInTransit(st.batches[b], st.serials[i].status);
  }

  /** A unit on its way stays so until its transfer is confirmed or it is received here. */
  lemma LeavesTransitExactly(st: Stock, retired: set<nat>, s: Step, i: nat)
    requires Valid(st, retired) && OnTheWay(st.serials, i)
    ensures !OnTheWay(Next(st, s).serials, i) <==>
            Attempt(st, s).Some? && (s.Confirming? || s.Receiving?) && i in s.ids
  {
    hide Valid, Next, Attempt;
    OutOfUseExactly(st, retired, s, i);
    if Attempt(st, s).Some? {
      TransitStatus(st, retired, s, i);
    } else {
      assert Next(st, s) == st by { RefusedStep(st, s); }
    }
  }

  lemma RefusedStep(st: Stock, s: Step)
    requires Attempt(st, s).None?
    ensures Next(st, s) == st
  {
    hide Attempt;
  }

  lemma TransitStatus(st: Stock, retired: set<nat>, s: Step, i: nat)
    requires Valid(st, retired) && OnTheWay(st.serials, i) && Attempt(st, s).Some?
    ensures i in Next(st, s).serials
    ensures Next(st, s).serials[i].status != InTransit <==> s.Receiving? && i in s.ids
    ensures !(s.Replacing? && Lookup(st.serials, s.oldNumber) == Some(i))
  {
    hide Valid, Replace, Allocate, Arrive, Confirm, LineFor, DispatchUnits, ReceiveUnits, Submit;
    if PlainStep(s) {
      hide Next;
      StatusUnchanged(st, s, i);
    } else {
      match s
      case Replacing(oldNumber, newNumber, expected, now) =>
        NotReplacedInTransit(st, oldNumber, newNumber, expected, now, i);
        ReplaceAt(st, retired, oldNumber, newNumber, expected, now, i);
      case Allocating(product, labels, now) => AllocateAt(st, retired, product, labels, now, i);
      case Arriving(manifest, now) => ArriveAt(st, retired, manifest, now, i);
      case Confirming(ids) => ConfirmAt(st, ids, i);
      case Dispatching(ids) => DispatchKeepsRows(st, ids);
      case Receiving(ids) => ReceiveKeepsRows(st, ids);
      case Submitting(b, checks) => SubmittedInTransit(st, retired, b, checks, i);
    }
  }

  lemma NotReplacedInTransit(st: Stock, oldNumber: string, newNumber: string, expected: SerialStatus, now: int, i: nat)
    requires OnTheWay(st.serials, i) && Replace(st, oldNumber, newNumber, expected, now).Some?
    ensures Lookup(st.serials, oldNumber) != Some(i)
  {
    hide IsMasterSerial, NumberTaken;
  }

  lemma SubmittedInTransit(st: Stock, retired: set<nat>, b: nat, checks: bool, i: nat)
    requires Valid(st, retired) && Submit(st, b, checks).Some? && OnTheWay(st.serials, i)
    ensures i in Submit(st, b, checks).value.serials && Submit(st, b, checks).value.serials[i].status == InTransit
  {
    hide Valid, Distinct, Complete, Rows, Target, Admissible;
    OpenIsDistinct(st, retired, b);
    SubmitExactly(st, b, checks);
    if i in st.batches[b].items {
      AuditKeepsTransit(st.serials[i], st.batches[b]);
    }
  }

  lemma AuditKeepsTransit(s: Serial, batch: Batch)
    requires Admissible(s, batch.kind) && s.status == InTransit
    ensures Target(batch, s.status) == InTransit
  {
  }

  /** In every run, a unit on its way is found on its way by the first confirmation or receipt that names it. */
  lemma {:induction false} StaysOnTheWay(start: Stock, steps: seq<Step>, more: seq<Step>, i: nat)
    requires Start(start) && OnTheWay(Run(start, steps).serials, i)
    requires forall s <- more :: (s.Confirming? || s.Receiving?) ==> i !in s.ids
    ensures OnTheWay(Run(start, steps + more).serials, i)
    decreases |more|
  {
    hide Valid, Next, OnTheWay, Start;
    if more == [] {
      assert steps + more == steps;
    } else {
      var init, s := more[..|more| - 1], more[|more| - 1];
      assert s in more && forall t <- init :: t in more;
      assert steps + more == steps + init + [s];
      StaysOnTheWay(start, steps, init, i);
      RunKeepsValid(start, steps + init);
      LeavesTransitExactly(Run(start, steps + init), Retired(start), s, i);
      assert (steps + init + [s])[..|steps + init|] == steps + init;
    }
  }

  predicate PlainStep(s: Step) {
    s.Creating? || s.Scanning? || s.Picking? || s.Removing? || s.ReturnScanning? || s.ReturnShelving?
    || s.Verifying? || s.Relocating?
  }

  /** Scans, picks, removals, returns, shelves and moves leave every status alone. */
  lemma StatusUnchanged(st: Stock, s: Step, i: nat)
    requires i in st.serials && PlainStep(s)
    ensures i in Next(st, s).serials && Next(st, s).serials[i].status == st.serials[i].status
  {
    hide Scan, FefoPick, SaleReturnScan, RemoveItem, Candidates, Unverified, Relocate, Plan;
    if Attempt(st, s).Some? {
      match s
      case Creating(_, _, _) =>
      case Scanning(b, text, allowed) => ScanKeepsRows(st, b, text, allowed);
      case Picking(b, product, quantity) => PickKeepsRows(st, b, product, quantity);
      case Removing(b, j) => RemoveKeepsRows(st, b, j);
      case ReturnScanning(b, text) => ReturnScanKeepsRows(st, b, text);
      case ReturnShelving(_, _, _) =>
      case Verifying(_, _, _) =>
      case Relocating(locations, destination, items) => RelocateExactly(st, locations, destination, items);
    }
  }

  lemma FreshIds(st: Stock, retired: set<nat>)
    requires Valid(st, retired)
    ensures Bounded(st.serials, st.nextId)
  {
  }

  lemma FreshId(st: Stock, retired: set<nat>, i: nat)
    requires Valid(st, retired) && i in st.serials
    ensures i != st.nextId
  {
  }

  // ----- Units over time -----

  /** A row is never lost; its number and product never change; once replaced it stays so. */
  ghost predicate Carried(serials: Serials, other: Serials) {
    forall i :: i in serials ==> i in other && CarriedRow(serials[i], other[i])
  }

  predicate CarriedRow(s: Serial, t: Serial) {
    t.number == s.number && t.product == s.product && t.origin == s.origin
    && (s.replacedBy.Some? ==> t.replacedBy == s.replacedBy)
  }

  /** The lot and dates of every row are unchanged. */
  ghost predicate LotsCarried(serials: Serials, other: Serials) {
    forall i :: i in serials ==> i in other && SameLot(serials[i], other[i])
  }

  /** A manifest that tells of returning units what their rows say. */
  ghost predicate ManifestAgrees(serials: Serials, manifest: seq<Arrival>) {
    forall i :: i in serials && LineFor(manifest, serials[i].number).Some? ==>
      LotOf(serials[i]) == ArrivalLot(LineFor(manifest, serials[i].number).value)
  }

  function LotOf(s: Serial): (Option<string>, Option<int>, Option<int>) {
    (s.lot, s.mfgDate, s.expiry)
  }

  function ArrivalLot(a: Arrival): (Option<string>, Option<int>, Option<int>) {
    (a.lot, a.mfgDate, a.expiry)
  }

  /** An accepted manifest keeps the lots and dates of known units exactly when it agrees with them. */
  lemma ArrivalKeepsLotsExactly(st: Stock, retired: set<nat>, manifest: seq<Arrival>, now: int)
    requires Valid(st, retired) && Arrive(st, manifest, now).Some?
    ensures LotsCarried(st.serials, Arrive(st, manifest, now).value.serials) <==> ManifestAgrees(st.serials, manifest)
  {
    hide Valid, ArriveAll, RepeatsNumber, LineFor;
    forall i | i in st.serials
      ensures i in Arrive(st, manifest, now).value.serials
      ensures Arrive(st, manifest, now).value.serials[i]
           == if LineFor(manifest, st.serials[i].number).Some?
              then Reactivated(st.serials[i], LineFor(manifest, st.serials[i].number).value) else st.serials[i]
    {
      ArriveAllAt(st, retired, manifest, now, i);
    }
  }

  lemma StepCarries(st: Stock, retired: set<nat>, s: Step)
    requires Valid(st, retired)
    ensures Carried(st.serials, Next(st, s).serials)
    ensures s.Arriving? || LotsCarried(st.serials, Next(st, s).serials)
  {
    hide Valid, Replace, Allocate, Arrive, Confirm, LineFor, Next, Attempt;
    if !IsLabelStep(s) {
      OtherStepsKeepRows(st, retired, s);
    } else {
      forall i | i in st.serials
        ensures i in Next(st, s).serials && CarriedRow(st.serials[i], Next(st, s).serials[i])
        ensures s.Arriving? || SameLot(st.serials[i], Next(st, s).serials[i])
      {
        LabelStepCarriesRow(st, retired, s, i);
      }
    }
  }

  lemma LabelStepCarriesRow(st: Stock, retired: set<nat>, s: Step, i: nat)
    requires Valid(st, retired) && IsLabelStep(s) && i in st.serials
    ensures i in Next(st, s).serials && CarriedRow(st.serials[i], Next(st, s).serials[i])
    ensures s.Arriving? || SameLot(st.serials[i], Next(st, s).serials[i])
  {
    hide Valid, Replace, Allocate, Arrive, Confirm, LineFor;
    if Attempt(st, s).Some? {
      match s
      case Replacing(oldNumber, newNumber, expected, now) =>
        ReplaceAt(st, retired, oldNumber, newNumber, expected, now, i);
        LinkedWhenValid(st, retired);
      case Allocating(product, labels, now) => AllocateAt(st, retired, product, labels, now, i);
      case Arriving(manifest, now) => ArriveAt(st, retired, manifest, now, i);
      case Confirming(ids) => ConfirmAt(st, ids, i);
    }
  }

  lemma LinkedWhenValid(st: Stock, retired: set<nat>)
    requires Valid(st, retired)
    ensures forall i :: i in st.serials && st.serials[i].active ==> st.serials[i].replacedBy.None?
  {
    forall i | i in st.serials && st.serials[i].active
      ensures st.serials[i].replacedBy.None?
    {
      assert LinkOk(st.serials, i);
    }
  }

  lemma CarriedTwice(a: Serials, b: Serials, c: Serials)
    requires Carried(a, b) && Carried(b, c)
    ensures Carried(a, c)
  {
  }

  lemma {:induction false} RunCarries(start: Stock, steps: seq<Step>)
    requires Start(start)
    ensures Carried(start.serials, Run(start, steps).serials)
    decreases |steps|
  {
    hide Valid, Next, Carried;
    if steps == [] {
      assert Carried(start.serials, start.serials) by { CarriedSelf(start.serials); }
    } else {
      var before := Run(start, steps[..|steps| - 1]);
      RunCarries(start, steps[..|steps| - 1]);
      RunKeepsValid(start, steps[..|steps| - 1]);
      StepCarries(before, Retired(start), steps[|steps| - 1]);
      CarriedTwice(start.serials, before.serials, Run(start, steps).serials);
    }
  }

  lemma CarriedSelf(serials: Serials)
    ensures Carried(serials, serials)
  {
  }

  lemma LabelledInRun(start: Stock, steps: seq<Step>)
    requires Start(start)
    ensures Labelled(Run(start, steps), Retired(start))
    ensures var st := Run(start, steps); Bounded(st.serials, st.nextId) && Linked(st.serials) && OneToOne(st.serials)
  {
    hide Run;
    RunKeepsValid(start, steps);
  }

  /**
   In every run, each unit first recorded is still there under exactly one label: its chain of
   replacements ends in a row of the same product, which is in use if the unit was in use at first,
   unless the unit has gone to another franchise.
   */
  lemma UnitsPersist(start: Stock, steps: seq<Step>, i: nat)
    requires Start(start) && i in start.serials
    ensures var st := Run(start, steps);
            Bounded(st.serials, st.nextId) && Linked(st.serials) && i in st.serials
            && start.serials[i].product == st.serials[End(st, i)].product
            && (start.serials[i].active ==> st.serials[End(st, i)].active || Away(st.serials[End(st, i)]))
  {
    hide Run, Labelled, Bounded, Linked, OneToOne;
    var st := Run(start, steps);
    RunCarries(start, steps);
    LabelledInRun(start, steps);
    ChainEndsInUse(st, Retired(start), i);
    if start.serials[i].active && End(st, i) in Retired(start) {
      RetiredEnd(start, steps, i);
    }
  }

  lemma RetiredEnd(start: Stock, steps: seq<Step>, i: nat)
    requires Start(start) && i in start.serials && Labelled(Run(start, steps), Retired(start))
    requires i in Run(start, steps).serials && End(Run(start, steps), i) in Retired(start)
    ensures i == End(Run(start, steps), i)
  {
    hide Run;
    var st := Run(start, steps);
    var e := End(st, i);
    if i != e {
      var n := EndReached(st, i);
      var p := ReachesLast(st.serials, i, e, n);
      LinkGoesToNewRow(start, steps, p, e);
      assert false;
    }
  }

  /** A successor is always a row added in the run, never one of the first rows. */
  lemma {:induction false} LinkGoesToNewRow(start: Stock, steps: seq<Step>, p: nat, e: nat)
    requires Start(start) && p in Run(start, steps).serials && Run(start, steps).serials[p].replacedBy == Some(e)
    ensures e !in start.serials
    decreases |steps|
  {
    hide Valid, Next;
    if steps != [] {
      var before, s := Run(start, steps[..|steps| - 1]), steps[|steps| - 1];
      RunKeepsValid(start, steps[..|steps| - 1]);
      RunCarries(start, steps[..|steps| - 1]);
      if p in before.serials && before.serials[p].replacedBy == Some(e) {
        LinkGoesToNewRow(start, steps[..|steps| - 1], p, e);
      } else {
        NewLink(before, Retired(start), s, p, e);
      }
    }
  }

  /** The step links row `p` to row `e`. */
  ghost predicate Linking(st: Stock, s: Step, p: nat, e: nat) {
    p in Next(st, s).serials && Next(st, s).serials[p].replacedBy == Some(e)
    && (p in st.serials ==> st.serials[p].replacedBy != Some(e))
  }

  lemma NewLink(st: Stock, retired: set<nat>, s: Step, p: nat, e: nat)
    requires Valid(st, retired) && Linking(st, s, p, e)
    ensures e !in st.serials
    ensures s.Replacing? && p in st.serials && e in Next(st, s).serials
         && SameLot(Next(st, s).serials[p], Next(st, s).serials[e])
  {
    hide Valid, Next, Linking;
    if s.Replacing? {
      ReplacingLinks(st, retired, s, p, e);
    } else if s.Allocating? {
      AllocatingLinksNothing(st, retired, s, p, e);
      assert false;
    } else if s.Arriving? {
      ArrivingLinksNothing(st, retired, s, p, e);
      assert false;
    } else {
      OthersLinkNothing(st, retired, s, p, e);
      assert false;
    }
  }

  lemma ReplacingLinks(st: Stock, retired: set<nat>, s: Step, p: nat, e: nat)
    requires Valid(st, retired) && Linking(st, s, p, e) && s.Replacing?
    ensures e !in st.serials
    ensures p in st.serials && e in Next(st, s).serials
    ensures SameLot(Next(st, s).serials[p], Next(st, s).serials[e])
  {
    hide Valid, IsMasterSerial, Replaceable, NumberTaken;
    FreshIds(st, retired);
  }

  lemma AllocatingLinksNothing(st: Stock, retired: set<nat>, s: Step, p: nat, e: nat)
    requires Valid(st, retired) && s.Allocating?
    ensures !Linking(st, s, p, e)
  {
    hide Valid, Allocated, LabelOk, NumberTaken, Repeats;
    FreshIds(st, retired);
    if Attempt(st, s).Some? && p in Next(st, s).serials {
      AllocatedUnlinked(st.serials, st.nextId, s.product, s.labels, s.now, p);
    }
  }

  lemma ArrivingLinksNothing(st: Stock, retired: set<nat>, s: Step, p: nat, e: nat)
    requires Valid(st, retired) && s.Arriving?
    ensures !Linking(st, s, p, e)
  {
    hide Valid, ArriveAll, RepeatsNumber;
    if Attempt(st, s).Some? && p in Next(st, s).serials {
      ArriveAllNew(st, retired, s.manifest, s.now, p);
    }
  }

  lemma OthersLinkNothing(st: Stock, retired: set<nat>, s: Step, p: nat, e: nat)
    requires Valid(st, retired) && (!IsLabelStep(s) || s.Confirming?)
    ensures !Linking(st, s, p, e)
  {
    if s.Confirming? {
      hide Valid;
    } else {
      hide Valid, Next;
      OtherStepsKeepRows(st, retired, s);
    }
  }

  lemma {:induction false} AllocatedUnlinked(serials: Serials, nextId: nat, product: nat, labels: seq<Label>, now: int,
      p: nat)
    requires Bounded(serials, nextId) && p in Allocated(serials, nextId, product, labels, now)
    ensures var s := Allocated(serials, nextId, product, labels, now)[p];
            s.replacedBy.None? || (p in serials && s == serials[p])
    decreases |labels|
  {
    if labels != [] && p != nextId + |labels| - 1 {
      AllocatedUnlinked(serials, nextId, product, labels[..|labels| - 1], now, p);
    }
  }

  // ----- Lots and dates -----

  /** Every manifest accepted in the run agrees with the rows it brings back. */
  ghost predicate ManifestsAgree(start: Stock, steps: seq<Step>) {
    steps == []
    || (ManifestsAgree(start, steps[..|steps| - 1])
        && (steps[|steps| - 1].Arriving? ==>
              ManifestAgrees(Run(start, steps[..|steps| - 1]).serials, steps[|steps| - 1].manifest)))
  }

  lemma StepCarriesLots(st: Stock, retired: set<nat>, s: Step)
    requires Valid(st, retired) && (s.Arriving? ==> ManifestAgrees(st.serials, s.manifest))
    ensures LotsCarried(st.serials, Next(st, s).serials)
  {
    hide Valid, LotsCarried, ManifestAgrees;
    if s.Arriving? {
      hide Arrive;
      if Attempt(st, s).Some? {
        ArrivalKeepsLotsExactly(st, retired, s.manifest, s.now);
      } else {
        assert LotsCarried(st.serials, st.serials) by { LotsCarriedSelf(st.serials); }
      }
    } else {
      hide Next;
      StepCarries(st, retired, s);
    }
  }

  lemma LotsCarriedSelf(serials: Serials)
    ensures LotsCarried(serials, serials)
  {
  }

  lemma StepKeepsLotsAgreed(st: Stock, retired: set<nat>, s: Step)
    requires Valid(st, retired) && LotsAgree(st.serials) && LotsCarried(st.serials, Next(st, s).serials)
    ensures LotsAgree(Next(st, s).serials)
  {
    hide Valid, Next;
    var after := Next(st, s).serials;
    forall i | i in after && after[i].replacedBy.Some? && after[i].replacedBy.value in after
      ensures SameLot(after[i], after[after[i].replacedBy.value])
    {
      var e := after[i].replacedBy.value;
      if i in st.serials && st.serials[i].replacedBy == Some(e) {
        LinkInTable(st, retired, i);
      } else {
        NewLink(st, retired, s, i, e);
      }
    }
  }

  lemma LinkInTable(st: Stock, retired: set<nat>, i: nat)
    requires Valid(st, retired) && i in st.serials && st.serials[i].replacedBy.Some?
    ensures st.serials[i].replacedBy.value in st.serials
  {
    assert LinkOk(st.serials, i);
  }

  lemma {:induction false} RunKeepsLots(start: Stock, steps: seq<Step>)
    requires Start(start) && ManifestsAgree(start, steps)
    ensures LotsCarried(start.serials, Run(start, steps).serials) && LotsAgree(Run(start, steps).serials)
    decreases |steps|
  {
    hide Valid, Next, ManifestAgrees;
    if steps != [] {
      var before := Run(start, steps[..|steps| - 1]);
      RunKeepsLots(start, steps[..|steps| - 1]);
      RunKeepsValid(start, steps[..|steps| - 1]);
      StepCarriesLots(before, Retired(start), steps[|steps| - 1]);
      StepKeepsLotsAgreed(before, Retired(start), steps[|steps| - 1]);
    }
  }

  /**
   In every run whose manifests agree with the units they bring back, each unit keeps its lot and
   dates, under whatever label it is found.
   */
  lemma UnitsKeepLots(start: Stock, steps: seq<Step>, i: nat)
    requires Start(start) && ManifestsAgree(start, steps) && i in start.serials
    ensures var st := Run(start, steps);
            Bounded(st.serials, st.nextId) && Linked(st.serials) && i in st.serials
            && SameLot(start.serials[i], st.serials[End(st, i)])
  {
    hide Run, Labelled, Bounded, Linked, OneToOne, LotsAgree, ManifestsAgree;
    RunKeepsLots(start, steps);
    LabelledInRun(start, steps);
    LotsAlongChain(Run(start, steps), i);
  }

  /** In every run, a label in use belongs to exactly one unit. */
  lemma LabelsIdentifyUnits(start: Stock, steps: seq<Step>, e: nat)
    requires Start(start) && e in Run(start, steps).serials && Run(start, steps).serials[e].active
    ensures var st := Run(start, steps);
            Bounded(st.serials, st.nextId) && Linked(st.serials)
            && (exists r :: IsRoot(st.serials, r) && End(st, r) == e)
            && forall r, q :: IsRoot(st.serials, r) && IsRoot(st.serials, q) && End(st, r) == e && End(st, q) == e ==>
                r == q
  {
    hide Run, Labelled, Bounded, Linked, OneToOne, IsRoot;
    LabelledInRun(start, steps);
    OneUnitPerLabel(Run(start, steps), Retired(start), e);
  }

  // ----- How many units are in use -----

  /** How many units an accepted step brings, less those whose transfer it completes. */
  ghost function Brought(st: Stock, s: Step): int {
    if Attempt(st, s).None? then 0
    else
      match s
      case Allocating(_, labels, _) => |labels|
      case Arriving(manifest, _) => |manifest|
      case Confirming(ids) => -|Elements(ids)|
      case _ => 0
  }

  ghost function BroughtInRun(start: Stock, steps: seq<Step>): int {
    if steps == [] then 0
    else
      BroughtInRun(start, steps[..|steps| - 1]) + Brought(Run(start, steps[..|steps| - 1]), steps[|steps| - 1])
  }

  lemma ConfirmCounts(st: Stock, ids: seq<nat>)
    requires Confirm(st, ids).Some?
    ensures |InUse(Confirm(st, ids).value.serials)| == |InUse(st.serials)| - |Elements(ids)|
  {
    assert forall i <- ids :: OnTheWay(st.serials, i);
    assert InUse(Departed(st.serials, ids)) == InUse(st.serials) - Elements(ids);
    assert Elements(ids) <= InUse(st.serials);
  }

  /** A row in use where there was none in use before is one unit more. */
  lemma OneMoreInUse(serials: Serials, i: nat, s: Serial)
    requires s.active && (i in serials ==> !serials[i].active)
    ensures |InUse(serials[i := s])| == |InUse(serials)| + 1
  {
    assert i !in InUse(serials);
    assert InUse(serials[i := s]) == InUse(serials) + {i};
  }

  lemma ArriveOneCounts(st: Stock, a: Arrival, now: int)
    requires Bounded(st.serials, st.nextId) && ArriveOne(st, a, now).Some?
    ensures |InUse(ArriveOne(st, a, now).value.serials)| == |InUse(st.serials)| + 1
  {
    hide InUse;
    match Lookup(st.serials, a.number)
    case None => OneMoreInUse(st.serials, st.nextId, ArrivingSerial(a, now));
    case Some(i) => OneMoreInUse(st.serials, i, Reactivated(st.serials[i], a));
  }

  lemma {:induction false} ArriveAllCounts(st: Stock, retired: set<nat>, manifest: seq<Arrival>, now: int)
    requires Valid(st, retired) && ArriveAll(st, manifest, now).Some?
    ensures |InUse(ArriveAll(st, manifest, now).value.serials)| == |InUse(st.serials)| + |manifest|
    decreases |manifest|
  {
    hide Valid, ArriveOne, InUse;
    if manifest != [] {
      var init := manifest[..|manifest| - 1];
      ArriveAllCounts(st, retired, init, now);
      ArriveAllKeepsValid(st, retired, init, now);
      FreshIds(ArriveAll(st, init, now).value, retired);
      ArriveOneCounts(ArriveAll(st, init, now).value, manifest[|manifest| - 1], now);
    }
  }

  lemma RefusedCounts(st: Stock, s: Step)
    requires Attempt(st, s).None?
    ensures Next(st, s) == st && Brought(st, s) == 0
  {
    hide Attempt;
  }

  lemma ReplacingCounts(st: Stock, retired: set<nat>, s: Step)
    requires Valid(st, retired) && s.Replacing? && Attempt(st, s).Some?
    ensures |InUse(Attempt(st, s).value.serials)| == |InUse(st.serials)| && Brought(st, s) == 0
  {
    hide Valid, Replace, InUse;
    FreshIds(st, retired);
    ReplaceKeepsUnitCount(st, s.oldNumber, s.newNumber, s.expected, s.now);
  }

  lemma AllocatingCounts(st: Stock, retired: set<nat>, s: Step)
    requires Valid(st, retired) && s.Allocating? && Attempt(st, s).Some?
    ensures |InUse(Attempt(st, s).value.serials)| == |InUse(st.serials)| + |s.labels|
    ensures Brought(st, s) == |s.labels|
  {
    hide Valid, Allocated, LabelOk, NumberTaken, Repeats, InUse;
    FreshIds(st, retired);
    AllocateAddsUnits(st.serials, st.nextId, s.product, s.labels, s.now);
  }

  lemma ArrivingCounts(st: Stock, retired: set<nat>, s: Step)
    requires Valid(st, retired) && s.Arriving? && Attempt(st, s).Some?
    ensures |InUse(Attempt(st, s).value.serials)| == |InUse(st.serials)| + |s.manifest|
    ensures Brought(st, s) == |s.manifest|
  {
    hide Valid, ArriveAll, RepeatsNumber, InUse;
    ArriveAllCounts(st, retired, s.manifest, s.now);
  }

  lemma ConfirmingCounts(st: Stock, s: Step)
    requires s.Confirming? && Attempt(st, s).Some?
    ensures |InUse(Attempt(st, s).value.serials)| == |InUse(st.serials)| - |Elements(s.ids)|
    ensures Brought(st, s) == -|Elements(s.ids)|
  {
    hide Confirm, InUse, Elements;
    ConfirmCounts(st, s.ids);
  }

  lemma OtherStepsCount(st: Stock, retired: set<nat>, s: Step)
    requires Valid(st, retired) && !IsLabelStep(s)
    ensures |InUse(Next(st, s).serials)| == |InUse(st.serials)| && Brought(st, s) == 0
  {
    hide Valid, Next, Attempt;
    OtherStepsKeepRows(st, retired, s);
    assert InUse(Next(st, s).serials) == InUse(st.serials);
  }

  lemma StepCounts(st: Stock, retired: set<nat>, s: Step)
    requires Valid(st, retired)
    ensures |InUse(Next(st, s).serials)| == |InUse(st.serials)| + Brought(st, s)
  {
    hide Valid, Attempt, Brought, InUse;
    if Attempt(st, s).None? {
      RefusedCounts(st, s);
    } else if s.Replacing? {
      ReplacingCounts(st, retired, s);
    } else if s.Allocating? {
      AllocatingCounts(st, retired, s);
    } else if s.Arriving? {
      ArrivingCounts(st, retired, s);
    } else if s.Confirming? {
      ConfirmingCounts(st, s);
    } else {
      OtherStepsCount(st, retired, s);
    }
  }

  /** In every run, only allocations, arrivals and completed transfers change how many units are in use. */
  lemma {:induction false} UnitsAreConserved(start: Stock, steps: seq<Step>)
    requires Start(start)
    ensures |InUse(Run(start, steps).serials)| == |InUse(start.serials)| + BroughtInRun(start, steps)
    decreases |steps|
  {
    hide Valid, Next, Brought, InUse;
    if steps != [] {
      UnitsAreConserved(start, steps[..|steps| - 1]);
      RunKeepsValid(start, steps[..|steps| - 1]);
      StepCounts(Run(start, steps[..|steps| - 1]), Retired(start), steps[|steps| - 1]);
    }
  }

  // ----- Histories -----

  /**
   In every run, the log of a unit in use, or away, links end to end from its first status to its
   current one, and sales exceed returns by one exactly when it is sold (by one less if it started sold).
   */
  lemma HistoriesLinkUp(start: Stock, steps: seq<Step>, i: nat)
    requires Start(start) && i in Run(start, steps).serials && Traced(Run(start, steps).serials[i])
    ensures var st := Run(start, steps);
            Chained(st.serials, st.ledger)
            && StatusAfter(st.ledger, i, st.serials[i].origin) == st.serials[i].status
            && (i in start.serials ==> st.serials[i].origin == start.serials[i].status)
            && Count(st.ledger, SaleTxn, i) - Count(st.ledger, SalesReturnTxn, i)
            == SoldUnit(st.serials[i].status) - SoldUnit(st.serials[i].origin)
  {
    hide Run, Labelled, BatchesOk, Exclusive, Chained, StatusAfter, Count;
    var st := Run(start, steps);
    RunKeepsValid(start, steps);
    SaleBalance(st.serials, st.ledger, i);
    RunCarries(start, steps);
  }
}
