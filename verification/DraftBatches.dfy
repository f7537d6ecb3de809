/**
 Draft batches (app/services/inventory.py, app/services/expiry.py, app/services/sale_returns.py):
 what each committed call does to the stock tables. A refused call leaves them as they were.
 `StockRoom` performs the same calls on mutable tables.
 */
module DraftBatches {
  import opened Options
  import opened StockTypes
  import opened Fefo

  // ----- Which serials a batch takes -----

  /** `serial_allowed_for_batch`. */
  predicate Admissible(s: Serial, kind: BatchType) {
    if !s.active || s.status == Replaced || s.status == Invalid then false
    else if s.status == Generated && kind != Purchase && kind != Receive && kind != QrAssignment then false
    else
      match kind
      case Purchase => s.status == Generated || s.status == PurchaseReturned
      case Receive => s.status == Generated || s.status == PurchaseReturned
      case Sale => s.status == InStock || s.status == Returned
      case Audit => true
      case SalesReturn => s.status == Sold
      case PurchaseReturn => s.status == InStock || s.status == Returned
      case Issue => s.status == InStock
      case QrAssignment => s.status == Generated
  }

  predicate InOtherDraft(st: Stock, b: nat, i: nat) {
    exists c <- st.batches :: c != b && st.batches[c].draft && i in st.batches[c].items
  }

  predicate IsOpen(st: Stock, b: nat) {
    b in st.batches && st.batches[b].draft
  }

  predicate ReturnsPending(batch: Batch) {
    batch.kind == Sale && batch.pending != []
  }

  function WithBatch(st: Stock, b: nat, batch: Batch): Stock {
    st.(batches := st.batches[b := batch])
  }

  // ----- The calls -----

  function CreateBatch(st: Stock, b: nat, kind: BatchType, reason: string): Option<Stock> {
    if b in st.batches then None else Some(WithBatch(st, b, Batch(kind, true, reason, [], [], {})))
  }

  /** `ensure_sale_scan_allowed`, `add_serial_to_batch`; `allowed` stands for audit assignments and shelf intervals. */
  function Scan(st: Stock, b: nat, text: string, allowed: bool): Option<Stock> {
    if !IsOpen(st, b) || ReturnsPending(st.batches[b]) || !allowed then None
    else
      var i :- Lookup(st.serials, Normalize(text));
      AddSerial(st, b, i)
  }

  function AddSerial(st: Stock, b: nat, i: nat): Option<Stock>
    requires IsOpen(st, b) && i in st.serials
  {
    var batch := st.batches[b];
    if !Admissible(st.serials[i], batch.kind) || !FefoAllows(st, batch.kind, i) then None
    else if i in batch.items || InOtherDraft(st, b, i) then None
    else Some(WithBatch(st, b, batch.(items := batch.items + [i])))
  }

  /** `add_fefo_serials_to_batch`. */
  function FefoPick(st: Stock, b: nat, product: nat, quantity: int): Option<Stock> {
    if !IsOpen(st, b) || !IsFefoType(st.batches[b].kind) then None
    else
      var batch := st.batches[b];
      var picked := Candidates(st, product, quantity, FefoStatuses(batch.kind));
      if |picked| < quantity then None
      else Some(WithBatch(st, b, batch.(items := batch.items + picked)))
  }

  /** `remove_batch_item`. */
  function RemoveItem(st: Stock, b: nat, i: nat): Option<Stock> {
    if !IsOpen(st, b) || i !in st.batches[b].items then None
    else
      var batch := st.batches[b];
      Some(WithBatch(st, b, batch.(items := Without(batch.items, i), verified := batch.verified - {i})))
  }

  /** `scan_sale_return_product`. */
  function SaleReturnScan(st: Stock, b: nat, text: string): Option<Stock> {
    if !IsOpen(st, b) || st.batches[b].kind != Sale || st.batches[b].pending != [] then None
    else
      var i :- Lookup(st.serials, Normalize(text));
      var s, batch := st.serials[i], st.batches[b];
      if !s.active || s.status == Invalid || s.status == Replaced || i !in batch.items then None
      else
        Some(WithBatch(st, b, batch.(items := Without(batch.items, i), pending := batch.pending + [i],
                                     verified := batch.verified - {i})))
  }

  function PlaceAt(s: Serial, location: nat, warehouse: string): Serial {
    s.(location := Some(location), warehouse := Some(warehouse))
  }

  /** The serials of `ids` put on one shelf. */
  function Placed(serials: Serials, ids: seq<nat>, location: nat, warehouse: string): (r: Serials)
    ensures r.Keys == serials.Keys
  {
    map i | i in serials :: if i in ids then PlaceAt(serials[i], location, warehouse) else serials[i]
  }

  /** `verify_sale_return_on_shelf`. */
  function SaleReturnShelf(st: Stock, b: nat, location: nat, warehouse: string): Option<Stock> {
    if !IsOpen(st, b) || st.batches[b].kind != Sale || st.batches[b].pending == [] then None
    else
      var batch := st.batches[b];
      Some(WithBatch(st, b, batch.(pending := [])).(serials := Placed(st.serials, batch.pending, location, warehouse)))
  }

  predicate ShelfControlled(kind: BatchType) {
    kind == Purchase || kind == Receive || kind == Audit
  }

  function Excluding(items: seq<nat>, verified: set<nat>): (r: seq<nat>)
    ensures forall i :: i in r <==> i in items && i !in verified
  {
    if items == [] then [] else (if items[0] in verified then [] else [items[0]]) + Excluding(items[1..], verified)
  }

  /** `pending_shelf_items`. */
  function Unverified(batch: Batch): seq<nat> {
    if ShelfControlled(batch.kind) then Excluding(batch.items, batch.verified) else []
  }

  /** `verify_pending_items_on_shelf`. */
  function ShelfVerify(st: Stock, b: nat, location: nat, warehouse: string): Option<Stock> {
    if !IsOpen(st, b) || Unverified(st.batches[b]) == [] then None
    else
      var batch := st.batches[b];
      var pending := Unverified(batch);
      Some(WithBatch(st, b, batch.(verified := batch.verified + Elements(pending)))
           .(serials := Placed(st.serials, pending, location, warehouse)))
  }

  // ----- Submission -----

  /** The status a submitted item moves to. */
  function Target(batch: Batch, previous: SerialStatus): SerialStatus {
    match batch.kind
    case Purchase => InStock
    case Receive => InStock
    case Sale => Sold
    case SalesReturn => if batch.reason == "DAMAGED" || batch.reason == "EXPIRED" then Damaged else InStock
    case PurchaseReturn => PurchaseReturned
    case Issue => Issued
    case Audit => previous
    case QrAssignment => previous
  }

  /** `transaction_type_for_batch`. */
  function TxnKindOf(kind: BatchType): TxnKind {
    match kind
    case Purchase => PurchaseTxn
    case Receive => PurchaseTxn
    case Sale => SaleTxn
    case SalesReturn => SalesReturnTxn
    case PurchaseReturn => PurchaseReturnTxn
    case Issue => IssueTxn
    case Audit => AuditTxn
    case QrAssignment => QrAssignmentTxn
  }

  /** The conditional update: one row changes if it is still active with the status that was read. */
  function Claim(serials: Serials, i: nat, previous: SerialStatus, target: SerialStatus): Option<Serials> {
    if i in serials && serials[i].status == previous && serials[i].active
    then Some(serials[i := serials[i].(status := target)])
    else None
  }

  datatype Moved = Moved(serials: Serials, ledger: seq<Txn>)

  /** One turn of the loop of `apply_batch_statuses`. */
  function ApplyItem(batch: Batch, m: Moved, i: nat): Option<Moved>
    requires i in m.serials
  {
    var previous := m.serials[i].status;
    var target := Target(batch, previous);
    var serials :- if batch.kind == Audit then Some(m.serials) else Claim(m.serials, i, previous, target);
    Some(Moved(serials, m.ledger + [Txn(TxnKindOf(batch.kind), i, previous, target)]))
  }

  function ApplyItems(batch: Batch, m: Moved, items: seq<nat>): (r: Option<Moved>)
    requires forall i <- items :: i in m.serials
    ensures r.Some? ==> r.value.serials.Keys == m.serials.Keys
  {
    if items == [] then Some(m)
    else
      var before :- ApplyItems(batch, m, items[..|items| - 1]);
      ApplyItem(batch, before, items[|items| - 1])
  }

  predicate AllAdmissible(serials: Serials, batch: Batch) {
    forall i <- batch.items :: i in serials && Admissible(serials[i], batch.kind)
  }

  /** What a batch itself must meet; `checks` stands for the price checks. */
  predicate Complete(batch: Batch, checks: bool) {
    checks && !ReturnsPending(batch) && batch.items != [] && Unverified(batch) == []
  }

  /** `submit_batch`'s stock side. */
  function Submit(st: Stock, b: nat, checks: bool): Option<Stock> {
    if !IsOpen(st, b) || !Complete(st.batches[b], checks) then None
    else
      var batch := st.batches[b];
      if !AllAdmissible(st.serials, batch) then None
      else
        var m :- ApplyItems(batch, Moved(st.serials, st.ledger), batch.items);
        Some(WithBatch(st, b, batch.(draft := false)).(serials := m.serials, ledger := m.ledger))
  }

  // ----- What a submission does -----

  predicate Distinct(s: seq<nat>) {
    forall j, k :: 0 <= j < k < |s| ==> s[j] != s[k]
  }

  lemma SortedIsDistinct(serials: Serials, s: seq<nat>)
    requires Sorted(serials, s)
    ensures Distinct(s)
  {
    assert forall j, k :: 0 <= j < k < |s| ==> Earlier(serials, s[j], s[k]);
  }

  lemma OrderedIsDistinct(serials: Serials, ids: set<nat>)
    requires ids <= serials.Keys
    ensures Distinct(Ordered(serials, ids))
  {
    hide Ordered, Earlier;
    OrderedIsSorted(serials, ids);
    SortedIsDistinct(serials, Ordered(serials, ids));
  }

  /** The serials after their batch is submitted. */
  function Shifted(serials: Serials, batch: Batch, items: seq<nat>): (r: Serials)
    ensures r.Keys == serials.Keys
  {
    map i | i in serials ::
      if i in items then serials[i].(status := Target(batch, serials[i].status)) else serials[i]
  }

  function RowOf(serials: Serials, batch: Batch, i: nat): Txn
    requires i in serials
  {
    Txn(TxnKindOf(batch.kind), i, serials[i].status, Target(batch, serials[i].status))
  }

  /** The log rows of a submitted batch. */
  function Rows(serials: Serials, batch: Batch, items: seq<nat>): (rows: seq<Txn>)
    requires forall i <- items :: i in serials
    ensures |rows| == |items|
  {
    seq(|items|, k requires 0 <= k < |items| => RowOf(serials, batch, items[k]))
  }

  lemma ShiftOne(serials: Serials, batch: Batch, init: seq<nat>, i: nat)
    requires i in serials && i !in init && serials[i].active
    ensures var was := Shifted(serials, batch, init);
            was[i] == serials[i]
            && ApplyItem(batch, Moved(was, []), i)
              == Some(Moved(Shifted(serials, batch, init + [i]), [RowOf(serials, batch, i)]))
  {
    hide TxnKindOf;
    var was, target := Shifted(serials, batch, init), Target(batch, serials[i].status);
    assert Shifted(serials, batch, init + [i]) == was[i := was[i].(status := target)];
    assert batch.kind == Audit ==> was[i := was[i].(status := target)] == was;
    assert [] + [RowOf(serials, batch, i)] == [RowOf(serials, batch, i)];
  }

  lemma LedgerOnlyGrows(batch: Batch, m: Moved, i: nat)
    requires i in m.serials
    ensures ApplyItem(batch, m, i).Some? == ApplyItem(batch, Moved(m.serials, []), i).Some?
    ensures ApplyItem(batch, m, i).Some? ==>
              var r := ApplyItem(batch, Moved(m.serials, []), i).value;
              ApplyItem(batch, m, i).value == Moved(r.serials, m.ledger + r.ledger)
  {
    hide TxnKindOf, Target;
  }

  lemma {:induction false} ApplyItemsEffect(batch: Batch, m: Moved, items: seq<nat>)
    requires forall i <- items :: i in m.serials && m.serials[i].active
    requires Distinct(items)
    ensures ApplyItems(batch, m, items)
         == Some(Moved(Shifted(m.serials, batch, items), m.ledger + Rows(m.serials, batch, items)))
    decreases |items|
  {
    hide ApplyItem, Shifted, Rows;
    if items == [] {
      NoItemsApplied(batch, m);
    } else {
      var init, i := items[..|items| - 1], items[|items| - 1];
      assert items == init + [i] && i in items && forall j <- init :: j in items;
      ApplyItemsEffect(batch, m, init);
      OneMoreApplied(batch, m, init, i);
    }
  }

  lemma NoItemsApplied(batch: Batch, m: Moved)
    ensures Shifted(m.serials, batch, []) == m.serials && m.ledger + Rows(m.serials, batch, []) == m.ledger
  {
  }

  lemma OneMoreApplied(batch: Batch, m: Moved, init: seq<nat>, i: nat)
    requires i in m.serials && m.serials[i].active && i !in init && forall j <- init :: j in m.serials
    ensures ApplyItem(batch, Moved(Shifted(m.serials, batch, init), m.ledger + Rows(m.serials, batch, init)), i)
         == Some(Moved(Shifted(m.serials, batch, init + [i]), m.ledger + Rows(m.serials, batch, init + [i])))
  {
    hide ApplyItem, RowOf, Shifted;
    var before := Moved(Shifted(m.serials, batch, init), m.ledger + Rows(m.serials, batch, init));
    LedgerOnlyGrows(batch, before, i);
    ShiftOne(m.serials, batch, init, i);
    assert Rows(m.serials, batch, init + [i]) == Rows(m.serials, batch, init) + [RowOf(m.serials, batch, i)];
    assert before.ledger + [RowOf(m.serials, batch, i)] == m.ledger + Rows(m.serials, batch, init + [i]);
  }

  /**
   The conditional update never refuses: whatever the tables hold, a batch of distinct items is
   submitted exactly when it is complete and every item is still admissible; its whole effect is
   then this.
   */
  lemma SubmitExactly(st: Stock, b: nat, checks: bool)
    requires IsOpen(st, b) && Distinct(st.batches[b].items)
    ensures var batch := st.batches[b];
            Submit(st, b, checks) ==
            if Complete(batch, checks) && AllAdmissible(st.serials, batch)
            then Some(Stock(Shifted(st.serials, batch, batch.items), st.nextId,
                            st.batches[b := batch.(draft := false)],
                            st.ledger + Rows(st.serials, batch, batch.items)))
            else None
  {
    var batch := st.batches[b];
    if Complete(batch, checks) && AllAdmissible(st.serials, batch) {
      ApplyItemsEffect(batch, Moved(st.serials, st.ledger), batch.items);
    }
  }

  // ----- Undoing a scan -----

  /** Shelf verification is recorded on the items themselves. */
  predicate VerifiedAreItems(batch: Batch) {
    forall i <- batch.verified :: i in batch.items
  }

  lemma {:induction false} WithoutLast(s: seq<nat>, x: nat)
    requires x !in s
    ensures Without(s + [x], x) == s
    decreases |s|
  {
    if s == [] {
      assert ([] + [x])[1..] == [];
    } else {
      assert (s + [x])[1..] == s[1..] + [x];
      WithoutLast(s[1..], x);
    }
  }

  lemma PutBack(st: Stock, b: nat, other: Batch)
    requires b in st.batches
    ensures WithBatch(WithBatch(st, b, other), b, st.batches[b]) == st
  {
    assert st.batches[b := other][b := st.batches[b]] == st.batches;
  }

  /** Removing the item of an accepted scan restores the tables exactly. */
  lemma RemovalUndoesScan(st: Stock, b: nat, text: string, allowed: bool)
    requires Scan(st, b, text, allowed).Some? && VerifiedAreItems(st.batches[b])
    ensures RemoveItem(Scan(st, b, text, allowed).value, b, Lookup(st.serials, Normalize(text)).value) == Some(st)
  {
    hide Admissible, FefoAllows, Normalize, InOtherDraft;
    var i, batch := Lookup(st.serials, Normalize(text)).value, st.batches[b];
    WithoutLast(batch.items, i);
    PutBack(st, b, batch.(items := batch.items + [i]));
    assert batch.verified - {i} == batch.verified;
    assert batch.(items := batch.items + [i]).(items := batch.items, verified := batch.verified - {i}) == batch;
  }

  /** In a sale, the return scan and the shelf scan together undo a scan but for where the unit now lies. */
  lemma ReturnUndoesScan(st: Stock, b: nat, text: string, location: nat, warehouse: string)
    requires Scan(st, b, text, true).Some? && st.batches[b].kind == Sale && VerifiedAreItems(st.batches[b])
    ensures var scanned := Scan(st, b, text, true).value;
            var i := Lookup(st.serials, Normalize(text)).value;
            SaleReturnScan(scanned, b, text).Some?
            && SaleReturnShelf(SaleReturnScan(scanned, b, text).value, b, location, warehouse)
            == Some(st.(serials := Placed(st.serials, [i], location, warehouse)))
  {
    hide Scan, SaleReturnScan, SaleReturnShelf, Lookup, Normalize, VerifiedAreItems;
    ReturnScanAccepted(st, b, text);
    var i := Lookup(st.serials, Normalize(text)).value;
    ShelfPutsBack(st, b, i, location, warehouse);
  }

  /** The tables between the return scan and the shelf scan. */
  ghost function ReturnPending(st: Stock, b: nat, i: nat): Stock
    requires b in st.batches
  {
    WithBatch(st, b, st.batches[b].(pending := [i]))
  }

  lemma ScanIs(st: Stock, b: nat, text: string, allowed: bool)
    requires Scan(st, b, text, allowed).Some?
    ensures IsOpen(st, b) && !ReturnsPending(st.batches[b]) && Lookup(st.serials, Normalize(text)).Some?
    ensures var i, batch := Lookup(st.serials, Normalize(text)).value, st.batches[b];
            i !in batch.items && Admissible(st.serials[i], batch.kind)
            && Scan(st, b, text, allowed) == Some(WithBatch(st, b, batch.(items := batch.items + [i])))
  {
    hide Admissible, FefoAllows, Normalize, InOtherDraft, Lookup;
  }

  lemma ReturnScanAccepted(st: Stock, b: nat, text: string)
    requires Scan(st, b, text, true).Some? && st.batches[b].kind == Sale && VerifiedAreItems(st.batches[b])
    ensures Lookup(st.serials, Normalize(text)).Some? && IsOpen(st, b)
    ensures SaleReturnScan(Scan(st, b, text, true).value, b, text)
         == Some(ReturnPending(st, b, Lookup(st.serials, Normalize(text)).value))
    ensures st.batches[b].pending == []
  {
    hide Scan, Normalize, Lookup, Without;
    ScanIs(st, b, text, true);
    var i, batch := Lookup(st.serials, Normalize(text)).value, st.batches[b];
    WithoutLast(batch.items, i);
    assert batch.items + [i] != [] && [] + [i] == [i];
    assert batch.verified - {i} == batch.verified;
    var grown := batch.(items := batch.items + [i]);
    assert grown.(items := batch.items, pending := [i], verified := batch.verified) == batch.(pending := [i]);
    SetTwice(st, b, grown, batch.(pending := [i]));
  }

  lemma SetTwice(st: Stock, b: nat, one: Batch, two: Batch)
    ensures WithBatch(WithBatch(st, b, one), b, two) == WithBatch(st, b, two)
  {
    assert st.batches[b := one][b := two] == st.batches[b := two];
  }

  lemma ShelfPutsBack(st: Stock, b: nat, i: nat, location: nat, warehouse: string)
    requires IsOpen(st, b) && st.batches[b].kind == Sale && st.batches[b].pending == []
    ensures SaleReturnShelf(ReturnPending(st, b, i), b, location, warehouse)
         == Some(st.(serials := Placed(st.serials, [i], location, warehouse)))
  {
    hide Placed;
    var batch := st.batches[b];
    assert batch.(pending := [i]).(pending := []) == batch;
    PutBack(st, b, batch.(pending := [i]));
  }

  // ----- The bulk pick -----

  /** The first `n` of a sorted list come before everything else in it. */
  lemma TakenFirst(serials: Serials, ids: set<nat>, n: nat, x: nat, y: nat)
    requires ids <= serials.Keys && n <= |Ordered(serials, ids)|
    requires x in Ordered(serials, ids)[..n] && y in ids && y !in Ordered(serials, ids)[..n]
    ensures Earlier(serials, x, y)
  {
    hide Earlier, Ordered;
    var s := Ordered(serials, ids);
    OrderedIsSorted(serials, ids);
    assert y in s;
    var j :| 0 <= j < n && s[j] == x;
    var k :| 0 <= k < |s| && s[k] == y;
    assert forall m :: 0 <= m < n ==> s[m] in s[..n];
  }

  /**
   The bulk pick succeeds exactly when enough units are on offer, and then adds exactly that many,
   each of them before every unit it leaves behind; it adds nothing when asked for none.
   */
  lemma PickTakesExactly(st: Stock, b: nat, product: nat, quantity: int)
    requires IsOpen(st, b) && IsFefoType(st.batches[b].kind)
    ensures var offered := Available(st, product, FefoStatuses(st.batches[b].kind));
            var picked := Candidates(st, product, quantity, FefoStatuses(st.batches[b].kind));
            (FefoPick(st, b, product, quantity).Some? <==> quantity <= |offered|)
            && (FefoPick(st, b, product, quantity).Some? ==>
                  FefoPick(st, b, product, quantity).value
                  == WithBatch(st, b, st.batches[b].(items := st.batches[b].items + picked))
                  && |picked| == (if quantity < 0 then 0 else quantity)
                  && forall x, y :: x in picked && y in offered && y !in picked ==> Earlier(st.serials, x, y))
  {
    hide Available, FefoStatuses, Ordered, Earlier;
    var offered := Available(st, product, FefoStatuses(st.batches[b].kind));
    var picked := Candidates(st, product, quantity, FefoStatuses(st.batches[b].kind));
    if 1 <= quantity <= |offered| {
      assert picked == Ordered(st.serials, offered)[..quantity];
      forall x, y | x in picked && y in offered && y !in picked
        ensures Earlier(st.serials, x, y)
      {
        TakenFirst(st.serials, offered, quantity, x, y);
      }
    }
  }

  // ----- Scanning units one by one against picking them at once -----

  /** Scans of these serials, one after another, are all accepted. */
  ghost predicate Accepted(st: Stock, b: nat, ids: seq<nat>)
    decreases |ids|
  {
    ids == []
    || (IsOpen(st, b) && ids[0] in st.serials && AddSerial(st, b, ids[0]).Some?
        && Accepted(AddSerial(st, b, ids[0]).value, b, ids[1..]))
  }

  lemma AcceptedIsAvailable(st: Stock, b: nat, i: nat)
    requires IsOpen(st, b) && IsFefoType(st.batches[b].kind) && i in st.serials && AddSerial(st, b, i).Some?
    ensures i in Available(st, st.serials[i].product, FefoStatuses(st.batches[b].kind))
  {
    hide FefoAllows;
    assert i !in Drafted(st.batches) by {
      forall c | c in st.batches && st.batches[c].draft
        ensures i !in st.batches[c].items
      {
        assert c != b ==> i !in st.batches[c].items;
      }
    }
  }

  lemma DraftedAfterScan(st: Stock, b: nat, i: nat)
    requires IsOpen(st, b)
    ensures Drafted(WithBatch(st, b, st.batches[b].(items := st.batches[b].items + [i])).batches)
         == Drafted(st.batches) + {i}
  {
    var next := WithBatch(st, b, st.batches[b].(items := st.batches[b].items + [i]));
    forall x | x in Drafted(next.batches)
      ensures x in Drafted(st.batches) + {i}
    {
      var c :| c in next.batches && next.batches[c].draft && x in next.batches[c].items;
      assert c in st.batches && st.batches[c].draft && (x in st.batches[c].items || x == i);
    }
    forall x | x in Drafted(st.batches) + {i}
      ensures x in Drafted(next.batches)
    {
      if x == i {
        assert i in next.batches[b].items;
      } else {
        var c :| c in st.batches && st.batches[c].draft && x in st.batches[c].items;
        assert x in next.batches[c].items;
      }
    }
  }

  lemma TakeStep(serials: Serials, ids: set<nat>, i: nat, k: int)
    requires ids <= serials.Keys && i in ids && k >= 1
    requires KeyOf(serials, i) == KeyOf(serials, Ordered(serials, ids)[0])
    ensures var rest := Take(Ordered(serials, ids - {i}), k - 1);
            Keys(serials, Take(Ordered(serials, ids), k)) == [KeyOf(serials, i)] + Keys(serials, rest)
  {
    hide *;
    var s, rest := Ordered(serials, ids), Ordered(serials, ids - {i});
    SortedWithout(serials, ids, i);
    KeysOfTake(serials, s, k);
    KeysOfTake(serials, rest, k - 1);
    TakeHead(Keys(serials, s), k);
    assert Keys(serials, s)[0] == KeyOf(serials, s[0]) by { KeysAt(serials, s); }
  }

  lemma KeysAt(serials: Serials, s: seq<nat>)
    requires s != []
    ensures Keys(serials, s)[0] == KeyOf(serials, s[0])
  {
  }

  lemma SortedWithout(serials: Serials, ids: set<nat>, i: nat)
    requires ids <= serials.Keys && i in ids
    requires KeyOf(serials, i) == KeyOf(serials, Ordered(serials, ids)[0])
    ensures Keys(serials, Ordered(serials, ids - {i})) == Keys(serials, Ordered(serials, ids))[1..]
  {
    OrderedIsSorted(serials, ids);
    OrderedWithout(serials, ids, i);
    WithoutKeys(serials, Ordered(serials, ids), i);
  }

  lemma KeysOfTake(serials: Serials, s: seq<nat>, n: int)
    ensures Keys(serials, Take(s, n)) == Take(Keys(serials, s), n)
  {
  }

  lemma TakeHead<T>(s: seq<T>, k: int)
    requires s != [] && k >= 1
    ensures Take(s, k) == [s[0]] + Take(s[1..], k - 1)
  {
  }

  /**
   Scans of one product, all accepted, with nothing in between, take units whose expiry keys are
   those of one bulk pick of as many, position by position; and that bulk pick would succeed.
   */
  lemma {:induction false} ScansPickLikeFefo(st: Stock, b: nat, product: nat, ids: seq<nat>)
    requires IsOpen(st, b) && IsFefoType(st.batches[b].kind) && Accepted(st, b, ids)
    requires forall i <- ids :: i in st.serials && st.serials[i].product == product
    ensures Keys(st.serials, ids) == Keys(st.serials, Candidates(st, product, |ids|, FefoStatuses(st.batches[b].kind)))
    ensures FefoPick(st, b, product, |ids|).Some?
    decreases |ids|
  {
    hide AddSerial, Accepted, Candidates, FefoStatuses, IsFefoType, Keys, FefoPick;
    if ids == [] {
      NoScans(st, b, product);
    } else {
      FirstScan(st, b, ids);
      var i := ids[0];
      var next := WithBatch(st, b, st.batches[b].(items := st.batches[b].items + [i]));
      NextBatch(st, b, i);
      assert ids[0] in ids && forall x <- ids[1..] :: x in ids;
      ScansPickLikeFefo(next, b, product, ids[1..]);
      ScanStep(st, b, product, ids);
    }
  }

  lemma NoScans(st: Stock, b: nat, product: nat)
    requires IsOpen(st, b) && IsFefoType(st.batches[b].kind)
    ensures Keys(st.serials, []) == Keys(st.serials, Candidates(st, product, 0, FefoStatuses(st.batches[b].kind)))
    ensures FefoPick(st, b, product, 0).Some?
  {
  }

  lemma FirstScan(st: Stock, b: nat, ids: seq<nat>)
    requires ids != [] && Accepted(st, b, ids)
    ensures IsOpen(st, b) && ids[0] in st.serials && AddSerial(st, b, ids[0]).Some?
    ensures Accepted(WithBatch(st, b, st.batches[b].(items := st.batches[b].items + [ids[0]])), b, ids[1..])
  {
    hide FefoAllows, Admissible;
  }

  lemma NextBatch(st: Stock, b: nat, i: nat)
    requires IsOpen(st, b)
    ensures var next := WithBatch(st, b, st.batches[b].(items := st.batches[b].items + [i]));
            next.serials == st.serials && IsOpen(next, b) && next.batches[b].kind == st.batches[b].kind
  {
  }

  lemma ScanStep(st: Stock, b: nat, product: nat, ids: seq<nat>)
    requires ids != [] && IsOpen(st, b) && IsFefoType(st.batches[b].kind)
    requires ids[0] in st.serials && st.serials[ids[0]].product == product && AddSerial(st, b, ids[0]).Some?
    requires var next := WithBatch(st, b, st.batches[b].(items := st.batches[b].items + [ids[0]]));
             Keys(st.serials, ids[1..])
             == Keys(next.serials, Candidates(next, product, |ids| - 1, FefoStatuses(st.batches[b].kind)))
    ensures Keys(st.serials, ids) == Keys(st.serials, Candidates(st, product, |ids|, FefoStatuses(st.batches[b].kind)))
    ensures FefoPick(st, b, product, |ids|).Some?
  {
    var i, kind := ids[0], st.batches[b].kind;
    var next := WithBatch(st, b, st.batches[b].(items := st.batches[b].items + [i]));
    var ids0 := Available(st, product, FefoStatuses(kind));
    AcceptedIsAvailable(st, b, i);
    AllowedIsEarliest(st, kind, i) by { hide Available; }
    DraftedAfterScan(st, b, i);
    assert Available(next, product, FefoStatuses(kind)) == ids0 - {i};
    TakeStep(st.serials, ids0, i, |ids|);
    KeysOfHead(st.serials, ids);
  }

  lemma KeysOfHead(serials: Serials, ids: seq<nat>)
    requires ids != []
    ensures Keys(serials, ids) == [KeyOf(serials, ids[0])] + Keys(serials, ids[1..])
  {
  }
}
