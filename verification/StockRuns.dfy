/**
 Every run of the stock machine: batches are created, scanned, picked, emptied and submitted,
 units are shelved, moved, allocated, relabelled, and sent to and received from other franchises, in
 any order. A refused call changes nothing.
 */
module StockRuns {
  import opened Options
  import opened StockTypes
  import opened Fefo
  import opened DraftBatches
  import opened StockLedger
  import opened Sequences
  import opened Relocation
  import opened RelocationEffects
  import opened Replacement
  import opened Transfers

  datatype Step =
    | Creating(b: nat, kind: BatchType, reason: string)
    | Scanning(b: nat, text: string, allowed: bool)
    | Picking(b: nat, product: nat, quantity: int)
    | Removing(b: nat, i: nat)
    | ReturnScanning(b: nat, text: string)
    | ReturnShelving(b: nat, location: nat, warehouse: string)
    | Verifying(b: nat, location: nat, warehouse: string)
    | Submitting(b: nat, checks: bool)
    | Relocating(locations: map<nat, Location>, destination: nat, items: seq<MoveItem>)
    | Allocating(product: nat, labels: seq<Label>, now: int)
    | Replacing(oldNumber: string, newNumber: string, expected: SerialStatus, now: int)
    | Dispatching(ids: seq<nat>)                       // an outbound transfer leaves
    | Confirming(ids: seq<nat>)                        // its units have been received elsewhere
    | Arriving(manifest: seq<Arrival>, now: int)       // an inbound transfer is announced
    | Receiving(ids: seq<nat>)                         // units of it are received here

  function RelocateStock(st: Stock, locations: map<nat, Location>, destination: nat,
      items: seq<MoveItem>): Option<Stock> {
    var m :- Relocate(st, locations, destination, items);
    Some(st.(serials := m.serials, ledger := m.ledger))
  }

  function Attempt(st: Stock, s: Step): Option<Stock> {
    match s
    case Creating(b, kind, reason) => CreateBatch(st, b, kind, reason)
    case Scanning(b, text, allowed) => Scan(st, b, text, allowed)
    case Picking(b, product, quantity) => FefoPick(st, b, product, quantity)
    case Removing(b, i) => RemoveItem(st, b, i)
    case ReturnScanning(b, text) => SaleReturnScan(st, b, text)
    case ReturnShelving(b, location, warehouse) => SaleReturnShelf(st, b, location, warehouse)
    case Verifying(b, location, warehouse) => ShelfVerify(st, b, location, warehouse)
    case Submitting(b, checks) => Submit(st, b, checks)
    case Relocating(locations, destination, items) => RelocateStock(st, locations, destination, items)
    case Allocating(product, labels, now) => Allocate(st, product, labels, now)
    case Replacing(oldNumber, newNumber, expected, now) => Replace(st, oldNumber, newNumber, expected, now)
    case Dispatching(ids) => DispatchUnits(st, ids)
    case Confirming(ids) => Confirm(st, ids)
    case Arriving(manifest, now) => Arrive(st, manifest, now)
    case Receiving(ids) => ReceiveUnits(st, ids)
  }

  function Next(st: Stock, s: Step): Stock {
    Attempt(st, s).GetOr(st)
  }

  function Run(st: Stock, steps: seq<Step>): Stock {
    if steps == [] then st else Next(Run(st, steps[..|steps| - 1]), steps[|steps| - 1])
  }

  /** Stock as first recorded: no batches, no log, no relabelled units. */
  ghost predicate Start(st: Stock) {
    st.batches == map[] && st.ledger == [] && Bounded(st.serials, st.nextId) && UniqueNumbers(st.serials)
    && forall i :: i in st.serials ==> st.serials[i].origin == st.serials[i].status && st.serials[i].replacedBy.None?
  }

  /** The labels out of use from the start. */
  ghost function Retired(st: Stock): set<nat> {
    set i | i in st.serials && !st.serials[i].active
  }

  // ----- The joint invariant -----

  /** Batches that take units in stock. */
  predicate TakesInStock(kind: BatchType) {
    kind == Sale || kind == Issue || kind == PurchaseReturn || kind == Audit
  }

  /** A scanned unit stays admissible while its label is in use and it is not on its way elsewhere. */
  ghost predicate ItemFits(s: Serial, kind: BatchType) {
    (s.active && s.status != InTransit ==> Admissible(s, kind)) && (s.status == InTransit ==> TakesInStock(kind))
  }

  /** An open batch holds known serials, each once. */
  ghost predicate BatchOk(serials: Serials, batch: Batch) {
    batch.draft ==>
      Distinct(batch.items) && VerifiedAreItems(batch)
      && forall i <- batch.items :: i in serials && ItemFits(serials[i], batch.kind)
  }

  ghost predicate BatchesOk(serials: Serials, batches: map<nat, Batch>) {
    forall b :: b in batches ==> BatchOk(serials, batches[b])
  }

  ghost predicate Disjoint(one: Batch, two: Batch) {
    one.draft && two.draft ==> forall i <- one.items :: i !in two.items
  }

  /** No serial is in two open batches. */
  ghost predicate Exclusive(batches: map<nat, Batch>) {
    forall b, c :: b in batches && c in batches && b != c ==> Disjoint(batches[b], batches[c])
  }

  ghost predicate Valid(st: Stock, retired: set<nat>) {
    BatchesOk(st.serials, st.batches) && Exclusive(st.batches)
    && LedgerOk(st.serials, st.ledger) && Labelled(st, retired)
  }

  // ----- Steps that only touch one batch -----

  /** Replacing one batch by one that is well formed and shares nothing with the other open ones. */
  lemma BatchStepKeepsValid(st: Stock, retired: set<nat>, b: nat, batch: Batch)
    requires Valid(st, retired) && BatchOk(st.serials, batch)
    requires forall c :: c in st.batches && c != b ==> Disjoint(batch, st.batches[c]) && Disjoint(st.batches[c], batch)
    ensures Valid(WithBatch(st, b, batch), retired)
  {
    hide BatchOk, Disjoint, LedgerOk, Bounded, UniqueNumbers, Linked, OneToOne, EndsInUse;
  }

  /** Fewer items are still fine. */
  lemma FewerItems(st: Stock, retired: set<nat>, b: nat, smaller: Batch)
    requires Valid(st, retired) && IsOpen(st, b) && Distinct(smaller.items) && VerifiedAreItems(smaller)
    requires smaller.kind == st.batches[b].kind && forall i <- smaller.items :: i in st.batches[b].items
    ensures Valid(WithBatch(st, b, smaller), retired)
  {
    hide LedgerOk, Labelled, ItemFits, VerifiedAreItems;
    var batch := st.batches[b];
    assert BatchOk(st.serials, batch);
    forall c | c in st.batches && c != b
      ensures Disjoint(smaller, st.batches[c]) && Disjoint(st.batches[c], smaller)
    {
      assert Disjoint(batch, st.batches[c]) && Disjoint(st.batches[c], batch);
    }
    BatchStepKeepsValid(st, retired, b, smaller);
  }

  /** More items, none of them in any open batch, each admissible, keep the invariant. */
  lemma MoreItems(st: Stock, retired: set<nat>, b: nat, more: seq<nat>)
    requires Valid(st, retired) && IsOpen(st, b) && Distinct(more)
    requires forall i <- more ::
               i in st.serials && Admissible(st.serials[i], st.batches[b].kind) && i !in Drafted(st.batches)
    ensures Valid(WithBatch(st, b, st.batches[b].(items := st.batches[b].items + more)), retired)
  {
    hide LedgerOk, Labelled, ItemFits;
    forall i | i in more
      ensures ItemFits(st.serials[i], st.batches[b].kind)
    {
      AdmissibleIsOk(st.serials[i], st.batches[b].kind);
    }
    var batch := st.batches[b];
    var grown := batch.(items := batch.items + more);
    assert BatchOk(st.serials, batch);
    assert forall c, i :: c in st.batches && st.batches[c].draft && i in st.batches[c].items ==>
        i in Drafted(st.batches);
    assert forall i <- more[..|more|] :: i !in batch.items;
    DistinctConcat(batch.items, more, |more|);
    assert grown.items == batch.items + more[..|more|];
    forall c | c in st.batches && c != b
      ensures Disjoint(grown, st.batches[c]) && Disjoint(st.batches[c], grown)
    {
      assert Disjoint(batch, st.batches[c]) && Disjoint(st.batches[c], batch);
    }
    BatchStepKeepsValid(st, retired, b, grown);
  }

  lemma AdmissibleIsOk(s: Serial, kind: BatchType)
    requires Admissible(s, kind)
    ensures ItemFits(s, kind)
  {
  }

  lemma {:induction false} WithoutDistinct(s: seq<nat>, x: nat)
    requires Distinct(s)
    ensures Distinct(Without(s, x))
  {
    if s != [] {
      WithoutDistinct(s[1..], x);
      forall j | 0 <= j < |Without(s[1..], x)|
        ensures Without(s[1..], x)[j] != s[0]
      {
        assert Without(s[1..], x)[j] in s[1..];
      }
    }
  }

  lemma CreateKeepsValid(st: Stock, retired: set<nat>, b: nat, kind: BatchType, reason: string)
    requires Valid(st, retired) && CreateBatch(st, b, kind, reason).Some?
    ensures Valid(CreateBatch(st, b, kind, reason).value, retired)
  {
    hide Valid;
    BatchStepKeepsValid(st, retired, b, Batch(kind, true, reason, [], [], {}));
  }

  lemma ScanKeepsValid(st: Stock, retired: set<nat>, b: nat, text: string, allowed: bool)
    requires Valid(st, retired) && Scan(st, b, text, allowed).Some?
    ensures Valid(Scan(st, b, text, allowed).value, retired)
  {
    hide Valid, FefoAllows, Admissible;
    var i := Lookup(st.serials, Normalize(text)).value;
    assert i !in Drafted(st.batches) by { NotDrafted(st, b, i); }
    MoreItems(st, retired, b, [i]);
  }

  lemma NotDrafted(st: Stock, b: nat, i: nat)
    requires IsOpen(st, b) && i !in st.batches[b].items && !InOtherDraft(st, b, i)
    ensures i !in Drafted(st.batches)
  {
    forall c | c in st.batches && st.batches[c].draft
      ensures i !in st.batches[c].items
    {
      assert c != b ==> i !in st.batches[c].items;
    }
  }

  lemma CandidatesAreFree(st: Stock, kind: BatchType, product: nat, quantity: int)
    requires IsFefoType(kind)
    ensures var picked := Candidates(st, product, quantity, FefoStatuses(kind));
            Distinct(picked)
            && forall i <- picked :: i in st.serials && Admissible(st.serials[i], kind) && i !in Drafted(st.batches)
  {
    hide Ordered, Drafted;
    var ids := Available(st, product, FefoStatuses(kind));
    OrderedIsDistinct(st.serials, ids);
    var picked := Candidates(st, product, quantity, FefoStatuses(kind));
    assert forall i <- picked :: i in Ordered(st.serials, ids);
  }

  lemma PickKeepsValid(st: Stock, retired: set<nat>, b: nat, product: nat, quantity: int)
    requires Valid(st, retired) && FefoPick(st, b, product, quantity).Some?
    ensures Valid(FefoPick(st, b, product, quantity).value, retired)
  {
    hide Valid, Candidates, FefoStatuses, Admissible, Distinct, Drafted;
    CandidatesAreFree(st, st.batches[b].kind, product, quantity);
    MoreItems(st, retired, b, Candidates(st, product, quantity, FefoStatuses(st.batches[b].kind)));
  }

  lemma OpenIsDistinct(st: Stock, retired: set<nat>, b: nat)
    requires Valid(st, retired) && IsOpen(st, b)
    ensures BatchOk(st.serials, st.batches[b]) && Distinct(st.batches[b].items) && VerifiedAreItems(st.batches[b])
  {
  }

  lemma RemoveKeepsValid(st: Stock, retired: set<nat>, b: nat, i: nat)
    requires Valid(st, retired) && RemoveItem(st, b, i).Some?
    ensures Valid(RemoveItem(st, b, i).value, retired)
  {
    hide Valid, Distinct;
    OpenIsDistinct(st, retired, b);
    WithoutDistinct(st.batches[b].items, i);
    var batch := st.batches[b];
    FewerItems(st, retired, b, batch.(items := Without(batch.items, i), verified := batch.verified - {i}));
  }

  lemma ReturnScanKeepsValid(st: Stock, retired: set<nat>, b: nat, text: string)
    requires Valid(st, retired) && SaleReturnScan(st, b, text).Some?
    ensures Valid(SaleReturnScan(st, b, text).value, retired)
  {
    hide Valid, Distinct;
    var i := Lookup(st.serials, Normalize(text)).value;
    OpenIsDistinct(st, retired, b);
    WithoutDistinct(st.batches[b].items, i);
    var batch := st.batches[b];
    FewerItems(st, retired, b,
      batch.(items := Without(batch.items, i), pending := batch.pending + [i], verified := batch.verified - {i}));
  }

  // ----- Steps that only put units somewhere -----

  /** Only where units are differs. */
  ghost predicate SamePlaceApart(serials: Serials, other: Serials) {
    serials.Keys == other.Keys
    && forall i :: i in serials ==>
        other[i] == serials[i].(location := other[i].location, warehouse := other[i].warehouse)
  }

  lemma PlacingKeepsBatches(serials: Serials, other: Serials, batches: map<nat, Batch>)
    requires BatchesOk(serials, batches) && SamePlaceApart(serials, other)
    ensures BatchesOk(other, batches)
  {
    hide BatchOk, SamePlaceApart;
    forall b | b in batches
      ensures BatchOk(other, batches[b])
    {
      PlacingKeepsBatch(serials, other, batches[b]);
    }
  }

  lemma PlacingKeepsBatch(serials: Serials, other: Serials, batch: Batch)
    requires BatchOk(serials, batch) && SamePlaceApart(serials, other)
    ensures BatchOk(other, batch)
  {
    hide Distinct, VerifiedAreItems, ItemFits;
    forall i | i in batch.items && i in serials && ItemFits(serials[i], batch.kind)
      ensures ItemFits(other[i], batch.kind)
    {
      PlacedFits(serials[i], other[i], batch.kind);
    }
  }

  lemma PlacedFits(s: Serial, t: Serial, kind: BatchType)
    requires t == s.(location := t.location, warehouse := t.warehouse) && ItemFits(s, kind)
    ensures ItemFits(t, kind)
  {
  }

  /** Only where units are, and the status of units in use, differs. */
  ghost predicate SameLabels(serials: Serials, other: Serials) {
    serials.Keys == other.Keys
    && forall i :: i in serials ==>
         other[i] == serials[i].(status := other[i].status, location := other[i].location,
                                 warehouse := other[i].warehouse)
         && (!serials[i].active ==> other[i].status == serials[i].status)
  }

  lemma SameLabelsLinked(serials: Serials, other: Serials)
    requires Linked(serials) && SameLabels(serials, other)
    ensures Linked(other)
  {
    forall i | i in other
      ensures LinkOk(other, i)
    {
      assert LinkOk(serials, i);
    }
  }

  lemma SameLabelsKeep(st: Stock, other: Stock, retired: set<nat>)
    requires Labelled(st, retired) && SameLabels(st.serials, other.serials) && other.nextId == st.nextId
    ensures Labelled(other, retired)
  {
    hide Linked;
    SameLabelsLinked(st.serials, other.serials);
  }

  lemma PlacingKeepsValid(st: Stock, retired: set<nat>, other: Serials)
    requires Valid(st, retired) && SamePlaceApart(st.serials, other)
    ensures Valid(st.(serials := other), retired)
  {
    hide Labelled, LedgerOk, BatchesOk, Exclusive;
    PlacingKeepsBatches(st.serials, other, st.batches);
    assert SameLabels(st.serials, other);
    SameLabelsKeep(st, st.(serials := other), retired);
    LedgerFrame(st.serials, other, st.ledger);
  }

  lemma ReturnShelfKeepsValid(st: Stock, retired: set<nat>, b: nat, location: nat, warehouse: string)
    requires Valid(st, retired) && SaleReturnShelf(st, b, location, warehouse).Some?
    ensures Valid(SaleReturnShelf(st, b, location, warehouse).value, retired)
  {
    hide Valid;
    OpenIsDistinct(st, retired, b);
    var batch := st.batches[b];
    FewerItems(st, retired, b, batch.(pending := []));
    PlacingKeepsValid(WithBatch(st, b, batch.(pending := [])), retired,
                      Placed(st.serials, batch.pending, location, warehouse));
  }

  lemma VerifyKeepsValid(st: Stock, retired: set<nat>, b: nat, location: nat, warehouse: string)
    requires Valid(st, retired) && ShelfVerify(st, b, location, warehouse).Some?
    ensures Valid(ShelfVerify(st, b, location, warehouse).value, retired)
  {
    hide Valid, Distinct;
    OpenIsDistinct(st, retired, b);
    var batch := st.batches[b];
    var verified := batch.(verified := batch.verified + Elements(Unverified(batch)));
    FewerItems(st, retired, b, verified);
    PlacingKeepsValid(WithBatch(st, b, verified), retired, Placed(st.serials, Unverified(batch), location, warehouse));
  }

  /** The rows of a move record units in use without changing their status. */
  lemma {:induction false} PlanIsMovable(serials: Serials, locations: map<nat, Location>, destination: nat,
      items: seq<MoveItem>)
    requires Plan(serials, locations, destination, items).Some?
    ensures forall i <- Flatten(Plan(serials, locations, destination, items).value) ::
              i in serials && Movable(serials[i])
    decreases |items|
  {
    hide Plan, Movable;
    if items == [] {
      NoLines(serials, locations, destination, "");
    } else {
      var n := |items| - 1;
      LastLine(serials, locations, destination, items);
      PlanIsMovable(serials, locations, destination, items[..n]);
      var lists := Plan(serials, locations, destination, items).value;
      forall i | i in lists[n]
        ensures i in serials && Movable(serials[i])
      {
        MatchingIsMovable(serials, items[n], i);
      }
    }
  }

  lemma MatchingIsMovable(serials: Serials, item: MoveItem, i: nat)
    requires i in Matching(serials, item)
    ensures i in serials && Movable(serials[i])
  {
    hide WarehouseMatches;
  }

  lemma MoveRowsStill(serials: Serials, moved: seq<nat>)
    requires Distinct(moved) && forall i <- moved :: i in serials && Movable(serials[i])
    ensures DistinctRows(MoveRows(serials, moved))
    ensures forall t <- MoveRows(serials, moved) :: ShapeOk(t) && t.from == t.to && t.serial in serials
              && serials[t.serial].active && t.from == serials[t.serial].status
  {
    var rows := MoveRows(serials, moved);
    forall t | t in rows
      ensures ShapeOk(t) && t.from == t.to && t.serial in serials && serials[t.serial].active
              && t.from == serials[t.serial].status
    {
      var k :| 0 <= k < |rows| && rows[k] == t;
      assert moved[k] in moved;
    }
  }

  lemma RelocateKeepsValid(st: Stock, retired: set<nat>, locations: map<nat, Location>, destination: nat,
      items: seq<MoveItem>)
    requires Valid(st, retired) && RelocateStock(st, locations, destination, items).Some?
    ensures Valid(RelocateStock(st, locations, destination, items).value, retired)
  {
    hide Relocate, Plan, LedgerOk, BatchesOk, Exclusive, Labelled, ShapeOk, Movable, DistinctRows;
    RelocateExactly(st, locations, destination, items);
    var moved := Flatten(Plan(st.serials, locations, destination, items).value);
    var warehouse := locations[destination].warehouse;
    PlanIsMovable(st.serials, locations, destination, items);
    MoveRowsStill(st.serials, moved);
    var rows := MoveRows(st.serials, moved);
    RowsKeepLedger(st.serials, st.serials, st.ledger, rows);
    var logged := st.(ledger := st.ledger + rows);
    assert SameLabels(st.serials, logged.serials);
    SameLabelsKeep(st, logged, retired);
    PlacingKeepsValid(logged, retired, Placed(st.serials, moved, destination, warehouse));
  }

  // ----- Submission -----

  lemma ShiftedSameLabels(serials: Serials, batch: Batch)
    requires AllAdmissible(serials, batch)
    ensures SameLabels(serials, Shifted(serials, batch, batch.items))
  {
    hide Target, Admissible;
    forall i | i in batch.items
      ensures serials[i].active
    {
      AdmissibleIsActive(serials[i], batch.kind);
    }
  }

  /** Submitting one batch leaves the items of every other open batch as they were. */
  lemma ShiftKeepsBatches(serials: Serials, batches: map<nat, Batch>, b: nat)
    requires BatchesOk(serials, batches) && Exclusive(batches) && b in batches && batches[b].draft
    ensures BatchesOk(Shifted(serials, batches[b], batches[b].items), batches[b := batches[b].(draft := false)])
    ensures Exclusive(batches[b := batches[b].(draft := false)])
  {
    hide ItemFits, Target, Distinct, VerifiedAreItems;
    var after, closed := Shifted(serials, batches[b], batches[b].items), batches[b := batches[b].(draft := false)];
    forall c | c in closed
      ensures BatchOk(after, closed[c])
    {
      if c != b {
        assert BatchOk(serials, batches[c]) && Disjoint(batches[c], batches[b]);
      }
    }
    forall c, d | c in closed && d in closed && c != d
      ensures Disjoint(closed[c], closed[d])
    {
      assert Disjoint(batches[c], batches[d]);
    }
  }

  lemma SubmitKeepsValid(st: Stock, retired: set<nat>, b: nat, checks: bool)
    requires Valid(st, retired) && Submit(st, b, checks).Some?
    ensures Valid(Submit(st, b, checks).value, retired)
  {
    hide LedgerOk, BatchesOk, Exclusive, Labelled, AllAdmissible, Shifted, Rows, Distinct;
    OpenIsDistinct(st, retired, b);
    var batch := st.batches[b];
    SubmitExactly(st, b, checks);
    ShiftedSameLabels(st.serials, batch);
    ShiftKeepsBatches(st.serials, st.batches, b);
    SubmitKeepsLedger(st.serials, st.ledger, batch);
    SameLabelsKeep(st, Submit(st, b, checks).value, retired);
  }

  // ----- Labels -----

  /** What changes of a scanned unit's row leave it fit for its batch. */
  ghost predicate StaysOk(s: Serial, t: Serial) {
    (t.active && t.status != InTransit ==> s.active && s.status == t.status)
    && (t.status == InTransit ==> s.status == InTransit)
  }

  lemma ItemStaysOk(s: Serial, t: Serial, kind: BatchType)
    requires ItemFits(s, kind) && StaysOk(s, t)
    ensures ItemFits(t, kind)
  {
  }

  /** New rows, and rows going out of use, leave the open batches and the log well formed. */
  lemma LabelStepKeepsRest(st: Stock, other: Serials)
    requires BatchesOk(st.serials, st.batches) && LedgerOk(st.serials, st.ledger)
    requires forall i :: i in st.serials ==> i in other && other[i].origin == st.serials[i].origin
    requires forall i :: i in st.serials ==> StaysOk(st.serials[i], other[i])
    requires forall i :: i in st.serials && Traced(other[i]) ==>
            Traced(st.serials[i]) && other[i].status == st.serials[i].status
    requires forall i :: i in other && i !in st.serials ==> other[i].origin == other[i].status
    ensures BatchesOk(other, st.batches) && LedgerOk(other, st.ledger)
  {
    hide LedgerOk, ItemFits, StaysOk;
    LedgerFrame(st.serials, other, st.ledger);
    forall b | b in st.batches
      ensures BatchOk(other, st.batches[b])
    {
      assert BatchOk(st.serials, st.batches[b]);
      forall i | st.batches[b].draft && i in st.batches[b].items
        ensures i in other && ItemFits(other[i], st.batches[b].kind)
      {
        ItemStaysOk(st.serials[i], other[i], st.batches[b].kind);
      }
    }
  }

  lemma {:induction false} AllocatedRows(serials: Serials, nextId: nat, product: nat, labels: seq<Label>, now: int)
    requires Bounded(serials, nextId)
    ensures var r := Allocated(serials, nextId, product, labels, now);
            (forall i :: i in serials ==> i in r && r[i] == serials[i])
            && forall i :: i in r && i !in serials ==> r[i].origin == r[i].status
    decreases |labels|
  {
    if labels != [] {
      AllocatedRows(serials, nextId, product, labels[..|labels| - 1], now);
    }
  }

  lemma AllocateKeepsValid(st: Stock, retired: set<nat>, product: nat, labels: seq<Label>, now: int)
    requires Valid(st, retired) && Allocate(st, product, labels, now).Some?
    ensures Valid(Allocate(st, product, labels, now).value, retired)
  {
    hide LabelOk, BatchesOk, LedgerOk, Exclusive, UniqueNumbers, Linked, OneToOne, EndsInUse, Allocated;
    AllocateKeepsLabels(st, retired, product, labels, now);
    AllocatedRows(st.serials, st.nextId, product, labels, now);
    LabelStepKeepsRest(st, Allocated(st.serials, st.nextId, product, labels, now));
  }

  lemma ReplaceKeepsValid(st: Stock, retired: set<nat>, oldNumber: string, newNumber: string, expected: SerialStatus,
      now: int)
    requires Valid(st, retired) && Replace(st, oldNumber, newNumber, expected, now).Some?
    ensures Valid(Replace(st, oldNumber, newNumber, expected, now).value, retired)
  {
    hide IsMasterSerial, BatchesOk, LedgerOk, Exclusive, UniqueNumbers, Linked, OneToOne, EndsInUse;
    ReplaceKeepsLabels(st, retired, oldNumber, newNumber, expected, now);
    LabelStepKeepsRest(st, Replace(st, oldNumber, newNumber, expected, now).value.serials);
  }

  // ----- Transfers -----

  lemma TransferRowsDistinct(kind: TxnKind, ids: seq<nat>, from: SerialStatus, to: SerialStatus)
    requires Distinct(ids)
    ensures DistinctRows(TransferRows(kind, ids, from, to))
    ensures forall i <- ids :: exists t <- TransferRows(kind, ids, from, to) :: t.serial == i
  {
    var rows := TransferRows(kind, ids, from, to);
    forall i | i in ids
      ensures exists t <- rows :: t.serial == i
    {
      var k :| 0 <= k < |ids| && ids[k] == i;
      assert rows[k] in rows;
    }
  }

  lemma TransferRow(kind: TxnKind, ids: seq<nat>, from: SerialStatus, to: SerialStatus, t: Txn)
    requires t in TransferRows(kind, ids, from, to)
    ensures t.serial in ids && t == Txn(kind, t.serial, from, to)
  {
    var k :| 0 <= k < |ids| && TransferRows(kind, ids, from, to)[k] == t;
  }

  /** The claim loop of a transfer, logged row by row, keeps every history linked. */
  lemma TransferKeepsLedger(serials: Serials, ledger: seq<Txn>, kind: TxnKind, ids: seq<nat>, from: SerialStatus,
      to: SerialStatus)
    requires LedgerOk(serials, ledger) && MayMove(serials, ids, from)
    requires (kind == TransferOutTxn && from == InStock && to == InTransit)
             || (kind == TransferInTxn && from == InTransit && to == InStock)
    ensures LedgerOk(Restatused(serials, ids, to), ledger + TransferRows(kind, ids, from, to))
  {
    hide LedgerOk, DistinctRows, TransferRows;
    TransferRowsDistinct(kind, ids, from, to);
    forall t | t in TransferRows(kind, ids, from, to)
      ensures t.serial in ids && t == Txn(kind, t.serial, from, to)
    {
      TransferRow(kind, ids, from, to, t);
    }
    RowsKeepLedger(serials, Restatused(serials, ids, to), ledger, TransferRows(kind, ids, from, to));
  }

  /** A unit in stock that leaves, or one on its way that arrives, stays fit for the batch that holds it. */
  lemma TransitKeepsItem(s: Serial, kind: BatchType)
    requires ItemFits(s, kind) && s.active
    ensures s.status == InStock ==> ItemFits(s.(status := InTransit), kind)
    ensures s.status == InTransit ==> ItemFits(s.(status := InStock), kind)
  {
  }

  lemma TransferKeepsBatches(serials: Serials, batches: map<nat, Batch>, ids: seq<nat>, from: SerialStatus,
      to: SerialStatus)
    requires BatchesOk(serials, batches) && MayMove(serials, ids, from)
    requires (from == InStock && to == InTransit) || (from == InTransit && to == InStock)
    ensures BatchesOk(Restatused(serials, ids, to), batches)
  {
    hide ItemFits;
    var after := Restatused(serials, ids, to);
    forall b | b in batches
      ensures BatchOk(after, batches[b])
    {
      assert BatchOk(serials, batches[b]);
      forall i | batches[b].draft && i in batches[b].items
        ensures i in after && ItemFits(after[i], batches[b].kind)
      {
        if i in ids {
          TransitKeepsItem(serials[i], batches[b].kind);
        }
      }
    }
  }

  lemma RestatusedSameLabels(serials: Serials, ids: seq<nat>, from: SerialStatus, to: SerialStatus)
    requires MayMove(serials, ids, from)
    ensures SameLabels(serials, Restatused(serials, ids, to))
  {
  }

  lemma DispatchKeepsValid(st: Stock, retired: set<nat>, ids: seq<nat>)
    requires Valid(st, retired) && DispatchUnits(st, ids).Some?
    ensures Valid(DispatchUnits(st, ids).value, retired)
  {
    hide LedgerOk, BatchesOk, Exclusive, Labelled, MayMove, Restatused, TransferRows, ClaimEach;
    ClaimEachExactly(st.serials, ids, InStock, InTransit);
    TransferKeepsLedger(st.serials, st.ledger, TransferOutTxn, ids, InStock, InTransit);
    TransferKeepsBatches(st.serials, st.batches, ids, InStock, InTransit);
    RestatusedSameLabels(st.serials, ids, InStock, InTransit);
    SameLabelsKeep(st, DispatchUnits(st, ids).value, retired);
  }

  lemma ReceiveKeepsValid(st: Stock, retired: set<nat>, ids: seq<nat>)
    requires Valid(st, retired) && ReceiveUnits(st, ids).Some?
    ensures Valid(ReceiveUnits(st, ids).value, retired)
  {
    hide LedgerOk, BatchesOk, Exclusive, Labelled, MayMove, Restatused, TransferRows, ClaimEach;
    ClaimEachExactly(st.serials, ids, InTransit, InStock);
    TransferKeepsLedger(st.serials, st.ledger, TransferInTxn, ids, InTransit, InStock);
    TransferKeepsBatches(st.serials, st.batches, ids, InTransit, InStock);
    RestatusedSameLabels(st.serials, ids, InTransit, InStock);
    SameLabelsKeep(st, ReceiveUnits(st, ids).value, retired);
  }

  predicate SameIdentity(s: Serial, t: Serial) {
    t.number == s.number && t.product == s.product && t.status == s.status && t.replacedBy == s.replacedBy
  }

  /** Labels do not mind units that come and go, as long as only units on their way do. */
  lemma AwayKeepsLabels(st: Stock, other: Serials, retired: set<nat>)
    requires Labelled(st, retired) && other.Keys == st.serials.Keys
    requires forall i :: i in other ==> SameIdentity(st.serials[i], other[i])
    requires forall i :: i in other && other[i].active != st.serials[i].active ==> st.serials[i].status == InTransit
    ensures Labelled(st.(serials := other), retired)
  {
    assert Linked(other) by {
      forall i | i in other
        ensures LinkOk(other, i)
      {
        assert LinkOk(st.serials, i);
      }
    }
  }

  lemma ConfirmKeepsValid(st: Stock, retired: set<nat>, ids: seq<nat>)
    requires Valid(st, retired) && Confirm(st, ids).Some?
    ensures Valid(Confirm(st, ids).value, retired)
  {
    hide LedgerOk, BatchesOk, Exclusive, Labelled;
    var other := Departed(st.serials, ids);
    assert forall i <- ids :: OnTheWay(st.serials, i);
    AwayKeepsLabels(st, other, retired);
    LabelStepKeepsRest(st, other);
  }

  lemma ArriveOneKeepsValid(st: Stock, retired: set<nat>, a: Arrival, now: int)
    requires Valid(st, retired) && ArriveOne(st, a, now).Some?
    ensures Valid(ArriveOne(st, a, now).value, retired)
  {
    hide LedgerOk, BatchesOk, Exclusive, UniqueNumbers, Linked, OneToOne, EndsInUse;
    match Lookup(st.serials, a.number)
    case None =>
      AddKeepsLabels(st, retired, ArrivingSerial(a, now));
      LabelStepKeepsRest(st, st.serials[st.nextId := ArrivingSerial(a, now)]);
    case Some(i) =>
      var other := st.serials[i := Reactivated(st.serials[i], a)];
      AwayKeepsLabels(st, other, retired);
      LabelStepKeepsRest(st, other);
  }

  lemma {:induction false} ArriveAllKeepsValid(st: Stock, retired: set<nat>, manifest: seq<Arrival>, now: int)
    requires Valid(st, retired) && ArriveAll(st, manifest, now).Some?
    ensures Valid(ArriveAll(st, manifest, now).value, retired)
    decreases |manifest|
  {
    hide Valid, ArriveOne;
    if manifest != [] {
      var init := manifest[..|manifest| - 1];
      ArriveAllKeepsValid(st, retired, init, now);
      ArriveOneKeepsValid(ArriveAll(st, init, now).value, retired, manifest[|manifest| - 1], now);
    }
  }

  // ----- Runs -----

  lemma StepKeepsValid(st: Stock, retired: set<nat>, s: Step)
    requires Valid(st, retired)
    ensures Valid(Next(st, s), retired)
  {
    hide Valid, CreateBatch, Scan, FefoPick, RemoveItem, SaleReturnScan, SaleReturnShelf, ShelfVerify, Submit,
         RelocateStock, Allocate, Replace, DispatchUnits, Confirm, ArriveAll, RepeatsNumber, ReceiveUnits;
    if Attempt(st, s).Some? {
      match s
      case Creating(b, kind, reason) => CreateKeepsValid(st, retired, b, kind, reason);
      case Scanning(b, text, allowed) => ScanKeepsValid(st, retired, b, text, allowed);
      case Picking(b, product, quantity) => PickKeepsValid(st, retired, b, product, quantity);
      case Removing(b, i) => RemoveKeepsValid(st, retired, b, i);
      case ReturnScanning(b, text) => ReturnScanKeepsValid(st, retired, b, text);
      case ReturnShelving(b, location, warehouse) => ReturnShelfKeepsValid(st, retired, b, location, warehouse);
      case Verifying(b, location, warehouse) => VerifyKeepsValid(st, retired, b, location, warehouse);
      case Submitting(b, checks) => SubmitKeepsValid(st, retired, b, checks);
      case Relocating(locations, destination, items) => RelocateKeepsValid(st, retired, locations, destination, items);
      case Allocating(product, labels, now) => AllocateKeepsValid(st, retired, product, labels, now);
      case Replacing(oldNumber, newNumber, expected, now) =>
        ReplaceKeepsValid(st, retired, oldNumber, newNumber, expected, now);
      case Dispatching(ids) => DispatchKeepsValid(st, retired, ids);
      case Confirming(ids) => ConfirmKeepsValid(st, retired, ids);
      case Arriving(manifest, now) => ArriveAllKeepsValid(st, retired, manifest, now);
      case Receiving(ids) => ReceiveKeepsValid(st, retired, ids);
    }
  }

  lemma StartIsValid(st: Stock)
    requires Start(st)
    ensures Valid(st, Retired(st))
  {
  }

  lemma {:induction false} RunKeepsValid(st: Stock, steps: seq<Step>)
    requires Start(st)
    ensures Valid(Run(st, steps), Retired(st))
    decreases |steps|
  {
    hide Valid, Next;
    if steps == [] {
      StartIsValid(st);
    } else {
      RunKeepsValid(st, steps[..|steps| - 1]);
      StepKeepsValid(Run(st, steps[..|steps| - 1]), Retired(st), steps[|steps| - 1]);
    }
  }
}
