/**
 The stock tables as mutable state, and the service calls that change them in place
 (app/services/inventory.py, expiry.py, sale_returns.py, shelf_verification.py, relocation.py,
 transfer.py, master_qr.py). Each is proved to do what `DraftBatches`, `Relocation`, `Transfers` and
 `Replacement` say, so the theorems about runs apply.
 */
module StockRoom {
  import opened Options
  import opened CanonicalJson
  import opened EventEnvelope
  import opened StockTypes
  import opened Fefo
  import opened DraftBatches
  import opened Relocation
  import opened RelocationEvents
  import opened Replacement
  import opened Transfers
  import BatchEvents
  import Inbox
  import LiteNode
  import Outbox
  import QrCommands

  class Tables {
    var serials: Serials
    var nextId: nat
    var batches: map<nat, Batch>
    var ledger: seq<Txn>

    function State(): Stock
      reads this
    {
      Stock(serials, nextId, batches, ledger)
    }

    constructor (serials: Serials, nextId: nat)
      ensures State() == Stock(serials, nextId, map[], [])
    {
      this.serials := serials;
      this.nextId := nextId;
      batches := map[];
      ledger := [];
    }

    method CreateDraft(b: nat, kind: BatchType, reason: string) returns (ok: bool)
      modifies this
      ensures ok == CreateBatch(old(State()), b, kind, reason).Some?
      ensures State() == CreateBatch(old(State()), b, kind, reason).GetOr(old(State()))
    {
      if b in batches {
        return false;
      }
      batches := batches[b := Batch(kind, true, reason, [], [], {})];
      return true;
    }

    /** `add_serial_to_batch`, behind the checks of its route. */
    method AddSerialToBatch(b: nat, text: string, allowed: bool) returns (ok: bool)
      modifies this
      ensures ok == Scan(old(State()), b, text, allowed).Some?
      ensures State() == Scan(old(State()), b, text, allowed).GetOr(old(State()))
    {
      hide Admissible, FefoAllows, Normalize, InOtherDraft;
      if b !in batches || ReturnsPending(batches[b]) || !allowed || !batches[b].draft {
        return false;
      }
      var found := Lookup(serials, Normalize(text));
      if found.None? {
        return false;
      }
      var i, batch := found.value, batches[b];
      if !Admissible(serials[i], batch.kind) || !FefoAllows(State(), batch.kind, i) {
        return false;
      }
      if i in batch.items || InOtherDraft(State(), b, i) {
        return false;
      }
      batches := batches[b := batch.(items := batch.items + [i])];
      return true;
    }

    /** `add_fefo_serials_to_batch`: one item a candidate, all in one transaction. */
    method AddFefoSerialsToBatch(b: nat, product: nat, quantity: int) returns (ok: bool)
      modifies this
      ensures ok == FefoPick(old(State()), b, product, quantity).Some?
      ensures State() == FefoPick(old(State()), b, product, quantity).GetOr(old(State()))
    {
      hide Candidates, FefoStatuses;
      if b !in batches || !batches[b].draft || !IsFefoType(batches[b].kind) {
        return false;
      }
      var candidates := Candidates(State(), product, quantity, FefoStatuses(batches[b].kind));
      if |candidates| < quantity {
        return false;
      }
      var batch := batches[b];
      assert batch.(items := batch.items + candidates[..0]) == batch;
      assert batches == batches[b := batch];
      for k := 0 to |candidates|
        invariant unchanged(this`serials) && unchanged(this`nextId) && unchanged(this`ledger)
        invariant b in batches && batches == old(batches)[b := batch.(items := batch.items + candidates[..k])]
      {
        batches := batches[b := batches[b].(items := batches[b].items + [candidates[k]])];
        assert batch.items + candidates[..k] + [candidates[k]] == batch.items + candidates[..k + 1];
      }
      assert candidates[..|candidates|] == candidates;
      return true;
    }

    /** `remove_batch_item`. */
    method RemoveBatchItem(b: nat, i: nat) returns (ok: bool)
      modifies this
      ensures ok == RemoveItem(old(State()), b, i).Some?
      ensures State() == RemoveItem(old(State()), b, i).GetOr(old(State()))
      ensures ok ==>
        && b in batches && b in old(batches) && i in old(batches)[b].items
        && forall j :: j in batches[b].items <==> j in old(batches)[b].items && j != i
    {
      if b !in batches || !batches[b].draft || i !in batches[b].items {
        return false;
      }
      var batch := batches[b];
      batches := batches[b := batch.(items := Without(batch.items, i), verified := batch.verified - {i})];
      return true;
    }

    /** `scan_sale_return_product`. */
    method ScanSaleReturnProduct(b: nat, text: string) returns (ok: bool)
      modifies this
      ensures ok == SaleReturnScan(old(State()), b, text).Some?
      ensures State() == SaleReturnScan(old(State()), b, text).GetOr(old(State()))
      ensures ok ==>
        && b in batches && b in old(batches) && |batches[b].pending| == 1
        && batches[b].pending[0] in old(batches)[b].items
        && forall j :: j in batches[b].items <==> j in old(batches)[b].items && j != batches[b].pending[0]
    {
      hide Normalize;
      if b !in batches || batches[b].kind != Sale || !batches[b].draft || batches[b].pending != [] {
        return false;
      }
      var found := Lookup(serials, Normalize(text));
      if found.None? {
        return false;
      }
      var i, batch := found.value, batches[b];
      if !serials[i].active || serials[i].status == Invalid || serials[i].status == Replaced || i !in batch.items {
        return false;
      }
      batches := batches[b := batch.(items := Without(batch.items, i), pending := batch.pending + [i],
                                     verified := batch.verified - {i})];
      return true;
    }

    /** Put some units on one shelf, row by row. */
    method PlaceOnShelf(ids: seq<nat>, location: nat, warehouse: string)
      modifies this`serials
      ensures serials == Placed(old(serials), ids, location, warehouse)
    {
      assert Placed(serials, ids[..0], location, warehouse) == serials;
      for k := 0 to |ids|
        invariant serials == Placed(old(serials), ids[..k], location, warehouse)
      {
        PlacedSnoc(old(serials), ids, k, location, warehouse);
        if ids[k] in serials {
          serials := serials[ids[k] := PlaceAt(serials[ids[k]], location, warehouse)];
        }
      }
      assert ids[..|ids|] == ids;
    }

    /** `verify_sale_return_on_shelf`. */
    method VerifySaleReturnOnShelf(b: nat, location: nat, warehouse: string) returns (ok: bool)
      modifies this
      ensures ok == SaleReturnShelf(old(State()), b, location, warehouse).Some?
      ensures State() == SaleReturnShelf(old(State()), b, location, warehouse).GetOr(old(State()))
    {
      if b !in batches || batches[b].kind != Sale || !batches[b].draft || batches[b].pending == [] {
        return false;
      }
      PlaceOnShelf(batches[b].pending, location, warehouse);
      batches := batches[b := batches[b].(pending := [])];
      return true;
    }

    /** `verify_pending_items_on_shelf`. */
    method VerifyPendingItemsOnShelf(b: nat, location: nat, warehouse: string) returns (ok: bool)
      modifies this
      ensures ok == ShelfVerify(old(State()), b, location, warehouse).Some?
      ensures State() == ShelfVerify(old(State()), b, location, warehouse).GetOr(old(State()))
    {
      hide Excluding;
      if b !in batches || !batches[b].draft || !ShelfControlled(batches[b].kind) {
        return false;
      }
      var pending := PendingShelfItems(batches[b]);
      if pending == [] {
        return false;
      }
      PlaceOnShelf(pending, location, warehouse);
      batches := batches[b := batches[b].(verified := batches[b].verified + Elements(pending))];
      return true;
    }

    /** `apply_batch_statuses`: item by item, rolled back if a claim finds its row changed. */
    method ApplyBatchStatuses(batch: Batch) returns (ok: bool)
      requires forall i <- batch.items :: i in serials
      modifies this`serials, this`ledger
      ensures (forall i <- batch.items :: i in old(serials))
           && ok == ApplyItems(batch, Moved(old(serials), old(ledger)), batch.items).Some?
           && Moved(serials, ledger)
              == ApplyItems(batch, Moved(old(serials), old(ledger)), batch.items)
                 .GetOr(Moved(old(serials), old(ledger)))
    {
      hide ApplyItem, ApplyItems;
      var savedSerials, savedLedger := serials, ledger;
      ghost var m := Moved(serials, ledger);
      NothingApplied(batch, m);
      for k := 0 to |batch.items|
        invariant forall i <- batch.items[..k] :: i in m.serials
        invariant ApplyItems(batch, m, batch.items[..k]) == Some(Moved(serials, ledger))
      {
        ApplyNextItem(batch, m, batch.items, k);
        var applied := ApplyOneItem(batch, batch.items[k]);
        if !applied {
          ApplyItemsFails(batch, m, batch.items, k + 1);
          serials, ledger := savedSerials, savedLedger;
          return false;
        }
      }
      assert batch.items[..|batch.items|] == batch.items;
      return true;
    }

    /** One turn: the conditional update of the row, except in an audit, and the log row. */
    method ApplyOneItem(batch: Batch, i: nat) returns (ok: bool)
      requires i in serials
      modifies this`serials, this`ledger
      ensures i in old(serials) && ok == ApplyItem(batch, Moved(old(serials), old(ledger)), i).Some?
      ensures ok ==> ApplyItem(batch, Moved(old(serials), old(ledger)), i) == Some(Moved(serials, ledger))
    {
      hide Target, TxnKindOf;
      var previous := serials[i].status;
      var target := Target(batch, previous);
      if batch.kind != Audit {
        var claimed := DraftBatches.Claim(serials, i, previous, target);
        if claimed.None? {
          return false;
        }
        serials := claimed.value;
      }
      ledger := ledger + [Txn(TxnKindOf(batch.kind), i, previous, target)];
      return true;
    }

    /** `submit_batch` up to the event: the checks, then the items. */
    method SubmitBatch(b: nat, checks: bool) returns (ok: bool)
      modifies this
      ensures ok == Submit(old(State()), b, checks).Some?
      ensures State() == Submit(old(State()), b, checks).GetOr(old(State()))
    {
      hide Admissible, Excluding, ApplyItems;
      if b !in batches || !batches[b].draft || ReturnsPending(batches[b]) || !checks {
        return false;
      }
      var batch := batches[b];
      var pending := PendingShelfItems(batch);
      if batch.items == [] || pending != []
         || exists i <- batch.items :: i !in serials || !Admissible(serials[i], batch.kind) {
        return false;
      }
      ok := ApplyBatchStatuses(batch);
      if ok {
        batches := batches[b := batch.(draft := false)];
      }
    }

    /** `submit_batch` on a Lite node: the stock moves and its event is queued, or neither. */
    method SubmitOnLite(node: LiteNode.Node, b: nat, checks: bool, header: BatchEvents.BatchHeader,
                        snapshot: (nat, Serial) -> Json)
      returns (ok: bool)
      modifies this, node
      ensures ok
           == BatchEvents.SubmitAndReport(old(State()), old(node.State()), b, checks, header, snapshot).Some?
      ensures (State(), node.State())
           == BatchEvents.SubmitAndReport(old(State()), old(node.State()), b, checks, header, snapshot)
              .GetOr((old(State()), old(node.State())))
    {
      hide Submit, Outbox.SubmitBatch, Outbox.ConfiguredCode, BatchEvents.BatchRequest;
      var saved := State();
      ok := SubmitBatch(b, checks);
      if ok {
        BatchEvents.SubmittedWasOpen(saved, b, checks);
        var code, batch := Outbox.ConfiguredCode(node.code), saved.batches[b];
        if code.Some? {
          ok := node.SubmitDraft(b, BatchEvents.BatchRequest(code.value, b, batch, header,
            BatchEvents.ItemSnapshots(snapshot, serials, batch.items)));
        } else {
          ok := false;
        }
        if !ok {
          serials, nextId, batches, ledger := saved.serials, saved.nextId, saved.batches, saved.ledger;
        }
      }
    }

    /** The claim loop of a transfer: unit by unit, undone if one has changed. */
    method ClaimUnits(kind: TxnKind, ids: seq<nat>, from: SerialStatus, to: SerialStatus) returns (ok: bool)
      modifies this`serials, this`ledger
      ensures ok == ClaimEach(old(serials), ids, from, to).Some?
      ensures serials == ClaimEach(old(serials), ids, from, to).GetOr(old(serials))
      ensures ledger == if ok then old(ledger) + TransferRows(kind, ids, from, to) else old(ledger)
    {
      hide ClaimEach, TransferRows, Claim;
      var savedSerials, savedLedger := serials, ledger;
      NoUnitClaimed(kind, serials, from, to);
      assert ids[..0] == [] && ledger + [] == ledger;
      for k := 0 to |ids|
        invariant ClaimEach(old(serials), ids[..k], from, to) == Some(serials)
        invariant ledger == old(ledger) + TransferRows(kind, ids[..k], from, to)
      {
        ClaimNextUnit(old(serials), ids, k, from, to);
        RowsOfNext(kind, ids, k, from, to);
        var claimed := DraftBatches.Claim(serials, ids[k], from, to);
        if claimed.None? {
          ClaimEachFails(old(serials), ids, from, to, k + 1);
          serials, ledger := savedSerials, savedLedger;
          return false;
        }
        serials := claimed.value;
        ledger := ledger + [Txn(kind, ids[k], from, to)];
      }
      assert ids[..|ids|] == ids;
      return true;
    }

    /** `dispatch_outbound_transfer`: units, log rows and event, or nothing. */
    method DispatchOutboundTransfer(node: LiteNode.Node, ids: seq<nat>, event: Outbox.Request) returns (ok: bool)
      modifies this, node
      ensures ok <==> DispatchUnits(old(State()), ids).Some? && Outbox.Enqueue(old(node.State()), event).Some?
      ensures State() == if ok then DispatchUnits(old(State()), ids).value else old(State())
      ensures node.State() == if ok then Outbox.Enqueue(old(node.State()), event).value else old(node.State())
    {
      hide ClaimEach, TransferRows, Outbox.Enqueue;
      if !(1 <= |ids| <= MAX_TRANSFER_ITEMS) {
        return false;
      }
      var saved := State();
      ok := ClaimUnits(TransferOutTxn, ids, InStock, InTransit);
      if ok {
        ok := node.EnqueueOutboxEvent(event, false);
        if !ok {
          serials, ledger := saved.serials, saved.ledger;
        }
      }
    }

    /** `finalize_inbound_receipt`: units, log rows and event, or nothing. */
    method FinalizeInboundReceipt(node: LiteNode.Node, ids: seq<nat>, event: Outbox.Request) returns (ok: bool)
      modifies this, node
      ensures ok <==> ReceiveUnits(old(State()), ids).Some? && Outbox.Enqueue(old(node.State()), event).Some?
      ensures State() == if ok then ReceiveUnits(old(State()), ids).value else old(State())
      ensures node.State() == if ok then Outbox.Enqueue(old(node.State()), event).value else old(node.State())
    {
      hide ClaimEach, TransferRows, Outbox.Enqueue;
      if ids == [] {
        return false;
      }
      var saved := State();
      ok := ClaimUnits(TransferInTxn, ids, InTransit, InStock);
      if ok {
        ok := node.EnqueueOutboxEvent(event, false);
        if !ok {
          serials, ledger := saved.serials, saved.ledger;
        }
      }
    }

    /** The loop of `apply_transfer_receipt_command`: each received unit goes out of use. */
    method DeactivateReceived(ids: seq<nat>)
      modifies this`serials
      ensures serials == Departed(old(serials), ids)
    {
      assert Departed(serials, ids[..0]) == serials;
      for k := 0 to |ids|
        invariant serials == Departed(old(serials), ids[..k])
      {
        DepartedSnoc(old(serials), ids, k);
        if ids[k] in serials {
          serials := serials[ids[k] := serials[ids[k]].(active := false)];
        }
      }
      assert ids[..|ids|] == ids;
    }

    /** The loop of `apply_transfer_available_command`; a refused line undoes the lines before it. */
    method ApplyTransferAvailable(manifest: seq<Arrival>, now: int) returns (ok: bool)
      modifies this
      ensures ok == Arrive(old(State()), manifest, now).Some?
      ensures State() == Arrive(old(State()), manifest, now).GetOr(old(State()))
    {
      hide SeenNumbers, RepeatsNumber, ArriveAll, ArriveOne;
      if manifest == [] {
        return false;
      }
      var saved, seen := State(), {};
      NothingArrived(saved, manifest, now);
      for k := 0 to |manifest|
        invariant SeenNumbers(manifest, k, seen) && !RepeatsNumber(manifest[..k])
        invariant ArriveAll(saved, manifest[..k], now) == Some(State())
      {
        var a := manifest[k];
        ArriveNext(saved, manifest, now, k);
        SeenNext(manifest, k, seen);
        if a.number in seen {
          serials, nextId, batches, ledger := saved.serials, saved.nextId, saved.batches, saved.ledger;
          return false;
        }
        seen := seen + {a.number};
        var arrived := AddArrival(a, now);
        if !arrived {
          ArriveAllFails(saved, manifest, now, k + 1);
          serials, nextId, batches, ledger := saved.serials, saved.nextId, saved.batches, saved.ledger;
          return false;
        }
      }
      assert manifest[..|manifest|] == manifest;
      return true;
    }

    /** One line of a manifest: a new row, or an old one back in use. */
    method AddArrival(a: Arrival, now: int) returns (ok: bool)
      modifies this`serials, this`nextId
      ensures ok == ArriveOne(old(State()), a, now).Some?
      ensures State() == ArriveOne(old(State()), a, now).GetOr(old(State()))
    {
      hide ArrivingSerial, Reactivated, Away, NumberTaken;
      var found := Lookup(serials, a.number);
      if found.None? {
        serials, nextId := serials[nextId := ArrivingSerial(a, now)], nextId + 1;
        return true;
      }
      var s := serials[found.value];
      if !Away(s) || s.product != a.product {
        return false;
      }
      serials := serials[found.value := Reactivated(s, a)];
      return true;
    }

    /** The row updates of one line: each unit is put at the destination and logged. */
    method MoveUnits(picked: seq<nat>, destination: nat, warehouse: string)
      requires forall i <- picked :: i in serials
      modifies this`serials, this`ledger
      ensures serials == Placed(old(serials), picked, destination, warehouse)
      ensures (forall i <- picked :: i in old(serials)) && ledger == old(ledger) + MoveRows(old(serials), picked)
    {
      assert Placed(serials, picked[..0], destination, warehouse) == serials;
      hide Placed, MoveRows, PlaceAt;
      ghost var before := serials;
      for k := 0 to |picked|
        invariant serials == Placed(before, picked[..k], destination, warehouse)
        invariant ledger == old(ledger) + MoveRows(before, picked)[..k]
      {
        PlacedSnoc(before, picked, k, destination, warehouse);
        MoveRowsOfNext(before, picked, k);
        var i := picked[k];
        assert i in picked;
        SameStatus(before, picked[..k], destination, warehouse, i);
        var status := serials[i].status;
        serials := serials[i := PlaceAt(serials[i], destination, warehouse)];
        ledger := ledger + [Txn(RelocationTxn, i, status, status)];
      }
      assert picked[..|picked|] == picked;
    }

    /** `relocate_stock`: a line that does not fit, or an event that is refused, undoes everything. */
    method RelocateStock(node: LiteNode.Node, locations: map<nat, Location>, destination: nat, items: seq<MoveItem>,
                         s: Sender, snapshot: Serial -> Json, ids: nat -> string)
      returns (ok: bool)
      modifies this, node
      ensures ok
           == RelocateAndReport(old(State()), old(node.State()), locations, destination, items, s, snapshot, ids).Some?
      ensures (State(), node.State())
           == RelocateAndReport(old(State()), old(node.State()), locations, destination, items, s, snapshot, ids)
              .GetOr((old(State()), old(node.State())))
    {
      hide MoveOne, MoveAll, PickItem, SameSource, Claimable, Placed, MoveRows, EnqueueChunks, Chunks, Snapshots;
      if destination !in locations || !locations[destination].active || items == [] {
        return false;
      }
      var saved := State();
      var moved: seq<nat> := [];
      ghost var start := Move(serials, [], ledger);
      assert MoveAll(locations, destination, start, items[..0]) == Some(start) by {
        NothingMoved(locations, destination, start);
      }
      for n := 0 to |items|
        invariant unchanged(this`nextId) && unchanged(this`batches) && unchanged(node)
        invariant MoveAll(locations, destination, start, items[..n]) == Some(Move(serials, moved, ledger))
      {
        var item, m := items[n], Move(serials, moved, ledger);
        MoveAllStep(locations, destination, start, m, items, n);
        MoveOneUnfolds(locations, destination, m, item);
        var fits := ItemOk(item, destination);
        var picked: seq<nat> := [];
        if fits {
          picked := PickItem(m, item);
          fits := |picked| == item.quantity && SameSource(locations, serials, picked)
            && |Claimable(serials, item, picked)| == item.quantity;
        }
        if !fits {
          MoveAllFails(locations, destination, start, items, n + 1);
          serials, ledger := saved.serials, saved.ledger;
          return false;
        }
        MoveUnits(picked, destination, locations[destination].warehouse);
        moved := moved + picked;
      }
      assert items[..|items|] == items;
      ok := QueueChunks(node, s, Snapshots(snapshot, Move(serials, moved, ledger)), ids);
      if !ok {
        serials, ledger := saved.serials, saved.ledger;
      }
    }

    /** One row a label, under the next ids. */
    method AddRows(product: nat, labels: seq<Label>, now: int)
      modifies this`serials, this`nextId
      ensures serials == Allocated(old(serials), old(nextId), product, labels, now)
      ensures nextId == old(nextId) + |labels|
    {
      hide NewSerial, Allocated;
      AllocatedNothing(serials, nextId, product, labels, now);
      for k := 0 to |labels|
        invariant nextId == old(nextId)
        invariant serials == Allocated(old(serials), nextId, product, labels[..k], now)
      {
        AllocatedSnoc(old(serials), nextId, product, labels, now, k);
        serials := serials[nextId + k := NewSerial(labels[k], product, now)];
      }
      assert labels[..|labels|] == labels;
      nextId := nextId + |labels|;
    }

    /** `apply_qr_allocated_command`, once its product is found or created. */
    method ApplyQrAllocated(product: nat, labels: seq<Label>, now: int) returns (ok: bool)
      modifies this
      ensures ok == Allocate(old(State()), product, labels, now).Some?
      ensures State() == Allocate(old(State()), product, labels, now).GetOr(old(State()))
    {
      hide LabelOk, NewSerial, Repeats, Allocated, NumberTaken;
      ok := 1 <= |labels| <= MAX_QRS_PER_COMMAND;
      if ok {
        ok := CheckLabels(labels);
      }
      if ok {
        ok := !exists l <- labels :: NumberTaken(serials, l.number);
      }
      if ok {
        AddRows(product, labels, now);
      }
    }

    /** The stock side of `apply_qr_replace_command`. */
    method ApplyQrReplace(oldNumber: string, newNumber: string, expected: SerialStatus, now: int) returns (ok: bool)
      modifies this
      ensures ok == Replace(old(State()), oldNumber, newNumber, expected, now).Some?
      ensures State() == Replace(old(State()), oldNumber, newNumber, expected, now).GetOr(old(State()))
    {
      hide IsMasterSerial, Replaceable, Successor;
      if !IsMasterSerial(newNumber) || newNumber == oldNumber || !Replaceable(expected) {
        return false;
      }
      var found := Lookup(serials, oldNumber);
      if found.None? {
        return false;
      }
      var i := found.value;
      if !serials[i].active || serials[i].status != expected || NumberTaken(serials, newNumber) {
        return false;
      }
      var replacement := Successor(serials[i], newNumber, now);
      var j := nextId;
      nextId := nextId + 1;
      serials := serials[i := Retire(serials[i], j)];
      serials := serials[j := replacement];
      return true;
    }
  }

  /** The filter of `pending_shelf_items`. */
  method PendingShelfItems(batch: Batch) returns (pending: seq<nat>)
    ensures pending == Unverified(batch)
  {
    pending := [];
    if ShelfControlled(batch.kind) {
      pending := ItemsExcluding(batch.items, batch.verified);
    }
  }

  method ItemsExcluding(items: seq<nat>, verified: set<nat>) returns (r: seq<nat>)
    ensures r == Excluding(items, verified)
  {
    hide Excluding;
    r := [];
    assert items[0..] == items && [] + Excluding(items, verified) == Excluding(items, verified);
    for k := 0 to |items|
      invariant r + Excluding(items[k..], verified) == Excluding(items, verified)
    {
      PendingNext(items, verified, k);
      ghost var rest := Excluding(items[k + 1..], verified);
      if items[k] in verified {
        assert [] + rest == rest;
      } else {
        assert r + ([items[k]] + rest) == (r + [items[k]]) + rest;
        r := r + [items[k]];
      }
    }
    assert items[|items|..] == [];
    assert r + [] == r && Excluding([], verified) == [] by { NothingPending(verified); }
  }

  lemma NothingPending(verified: set<nat>)
    ensures Excluding([], verified) == []
  {
  }

  lemma PendingNext(items: seq<nat>, verified: set<nat>, k: nat)
    requires k < |items|
    ensures Excluding(items[k..], verified)
         == (if items[k] in verified then [] else [items[k]]) + Excluding(items[k + 1..], verified)
  {
    assert items[k..][0] == items[k] && items[k..][1..] == items[k + 1..];
  }

  lemma NoUnitClaimed(kind: TxnKind, serials: Serials, from: SerialStatus, to: SerialStatus)
    ensures ClaimEach(serials, [], from, to) == Some(serials) && TransferRows(kind, [], from, to) == []
  {
  }

  lemma ClaimNextUnit(serials: Serials, ids: seq<nat>, k: nat, from: SerialStatus, to: SerialStatus)
    requires k < |ids| && ClaimEach(serials, ids[..k], from, to).Some?
    ensures ClaimEach(serials, ids[..k + 1], from, to)
         == Claim(ClaimEach(serials, ids[..k], from, to).value, ids[k], from, to)
  {
    hide Claim;
    assert ids[..k + 1][..k] == ids[..k];
  }

  lemma RowsOfNext(kind: TxnKind, ids: seq<nat>, k: nat, from: SerialStatus, to: SerialStatus)
    requires k < |ids|
    ensures TransferRows(kind, ids[..k + 1], from, to)
         == TransferRows(kind, ids[..k], from, to) + [Txn(kind, ids[k], from, to)]
  {
    var before, after := ids[..k], ids[..k + 1];
    assert forall j :: 0 <= j < k ==> after[j] == before[j];
  }

  lemma MoveRowsOfNext(serials: Serials, picked: seq<nat>, k: nat)
    requires k < |picked| && forall i <- picked :: i in serials
    ensures MoveRows(serials, picked)[..k + 1]
         == MoveRows(serials, picked)[..k]
            + [Txn(RelocationTxn, picked[k], serials[picked[k]].status, serials[picked[k]].status)]
  {
  }

  lemma {:induction false} ClaimEachFails(serials: Serials, ids: seq<nat>, from: SerialStatus, to: SerialStatus, k: nat)
    requires k <= |ids| && ClaimEach(serials, ids[..k], from, to).None?
    ensures ClaimEach(serials, ids, from, to).None?
    decreases |ids| - k
  {
    hide Claim;
    if k == |ids| {
      assert ids[..k] == ids;
    } else {
      assert ids[..k + 1][..k] == ids[..k];
      ClaimEachFails(serials, ids, from, to, k + 1);
    }
  }

  lemma DepartedSnoc(serials: Serials, ids: seq<nat>, k: nat)
    requires k < |ids|
    ensures var before, after := Departed(serials, ids[..k]), Departed(serials, ids[..k + 1]);
            after == if ids[k] in before then before[ids[k] := before[ids[k]].(active := false)] else before
  {
    assert ids[..k + 1] == ids[..k] + [ids[k]];
  }

  ghost predicate SeenNumbers(manifest: seq<Arrival>, k: nat, seen: set<string>)
    requires k <= |manifest|
  {
    (forall j :: 0 <= j < k ==> manifest[j].number in seen)
    && forall number :: number in seen ==> exists j :: 0 <= j < k && manifest[j].number == number
  }

  lemma SeenNext(manifest: seq<Arrival>, k: nat, seen: set<string>)
    requires k < |manifest| && SeenNumbers(manifest, k, seen) && !RepeatsNumber(manifest[..k])
    ensures manifest[k].number in seen ==> RepeatsNumber(manifest)
    ensures manifest[k].number !in seen ==>
              SeenNumbers(manifest, k + 1, seen + {manifest[k].number}) && !RepeatsNumber(manifest[..k + 1])
  {
    var init, more := manifest[..k], manifest[..k + 1];
    assert forall j :: 0 <= j < k ==> more[j] == init[j] == manifest[j];
    if manifest[k].number in seen {
      var j :| 0 <= j < k && manifest[j].number == manifest[k].number;
    } else {
      assert manifest[k].number in seen + {manifest[k].number};
    }
  }

  lemma NothingArrived(st: Stock, manifest: seq<Arrival>, now: int)
    ensures SeenNumbers(manifest, 0, {}) && !RepeatsNumber(manifest[..0])
         && ArriveAll(st, manifest[..0], now) == Some(st)
  {
  }

  lemma ArriveNext(st: Stock, manifest: seq<Arrival>, now: int, k: nat)
    requires k < |manifest| && ArriveAll(st, manifest[..k], now).Some?
    ensures ArriveAll(st, manifest[..k + 1], now)
         == ArriveOne(ArriveAll(st, manifest[..k], now).value, manifest[k], now)
  {
    hide ArriveOne;
    assert manifest[..k + 1][..k] == manifest[..k];
  }

  lemma {:induction false} ArriveAllFails(st: Stock, manifest: seq<Arrival>, now: int, k: nat)
    requires k <= |manifest| && ArriveAll(st, manifest[..k], now).None?
    ensures ArriveAll(st, manifest, now).None?
    decreases |manifest| - k
  {
    hide ArriveOne;
    if k == |manifest| {
      assert manifest[..k] == manifest;
    } else {
      assert manifest[..k + 1][..k] == manifest[..k];
      ArriveAllFails(st, manifest, now, k + 1);
    }
  }

  /** The parsing loop of `apply_qr_allocated_command`: each serial is well formed, and none is repeated. */
  method CheckLabels(labels: seq<Label>) returns (ok: bool)
    ensures ok <==> (forall l <- labels :: LabelOk(l)) && !Repeats(labels)
  {
    hide LabelOk;
    var seen: set<string> := {};
    for k := 0 to |labels|
      invariant forall j :: 0 <= j < k ==> LabelOk(labels[j]) && labels[j].number in seen
      invariant forall number :: number in seen ==> exists j :: 0 <= j < k && labels[j].number == number
      invariant !Repeats(labels[..k])
    {
      if !LabelOk(labels[k]) {
        assert labels[k] in labels;
        return false;
      }
      if labels[k].number in seen {
        return false;
      }
      seen := seen + {labels[k].number};
      RepeatsSnoc(labels, k);
    }
    assert labels[..|labels|] == labels;
    return true;
  }

  /** The chunk loop of `relocate_stock`: every chunk is queued, or none is. */
  method QueueChunks(node: LiteNode.Node, s: Sender, snapshots: seq<Json>, ids: nat -> string) returns (ok: bool)
    modifies node
    ensures ok == EnqueueChunks(old(node.State()), s, Chunks(snapshots), ids, |Chunks(snapshots)|).Some?
    ensures node.State()
         == EnqueueChunks(old(node.State()), s, Chunks(snapshots), ids, |Chunks(snapshots)|).GetOr(old(node.State()))
  {
    hide Outbox.Enqueue, Chunks, ChunkRequest, Reported, ChunkOk;
    ghost var lite, chunks := node.State(), Chunks(snapshots);
    var saved := node.events;
    var offset, part := 0, 0;
    ChunksPartition(snapshots);
    while offset < |snapshots|
      invariant offset == part * MAX_ITEMS && part <= |chunks|
      invariant offset >= |snapshots| ==> part == |chunks|
      invariant EnqueueChunks(lite, s, chunks, ids, part) == Some(node.State())
    {
      ChunkAt(snapshots, part);
      var end := if offset + MAX_ITEMS < |snapshots| then offset + MAX_ITEMS else |snapshots|;
      part := part + 1;
      ok := node.EnqueueOutboxEvent(ChunkRequest(s, part, snapshots[offset..end], ids(part)), false);
      if !ok {
        EnqueueChunksFails(lite, s, chunks, ids, part, |chunks|);
        EnqueuedChunks(lite, s, chunks, ids, part - 1);
        node.events := saved;
        return false;
      }
      offset := offset + MAX_ITEMS;
    }
    return true;
  }

  lemma {:induction false} ChunkAt<T>(items: seq<T>, k: nat)
    requires k * MAX_ITEMS < |items|
    ensures k < |Chunks(items)|
    ensures Chunks(items)[k]
         == items[k * MAX_ITEMS..if (k + 1) * MAX_ITEMS < |items| then (k + 1) * MAX_ITEMS else |items|]
    decreases k
  {
    if |items| > MAX_ITEMS {
      var rest := items[MAX_ITEMS..];
      assert Chunks(items) == [items[..MAX_ITEMS]] + Chunks(rest);
      if k > 0 {
        ChunkAt(rest, k - 1);
        var lo, end := (k - 1) * MAX_ITEMS, if k * MAX_ITEMS < |rest| then k * MAX_ITEMS else |rest|;
        assert Chunks(items)[k] == Chunks(rest)[k - 1] == rest[lo..end];
        SliceOfRest(items, lo, end);
        assert lo + MAX_ITEMS == k * MAX_ITEMS && k * MAX_ITEMS + MAX_ITEMS == (k + 1) * MAX_ITEMS;
      }
    } else {
      assert Chunks(items) == [items] && items[0..|items|] == items;
    }
  }

  lemma SliceOfRest<T>(items: seq<T>, lo: nat, end: nat)
    requires MAX_ITEMS <= |items| && lo <= end <= |items| - MAX_ITEMS
    ensures items[MAX_ITEMS..][lo..end] == items[lo + MAX_ITEMS..end + MAX_ITEMS]
  {
  }

  lemma {:induction false} EnqueueChunksFails(lite: Outbox.Lite, s: Sender, chunks: seq<seq<Json>>,
      ids: nat -> string, n: nat, k: nat)
    requires n <= k <= |chunks| && EnqueueChunks(lite, s, chunks, ids, n).None?
    ensures EnqueueChunks(lite, s, chunks, ids, k).None?
    decreases k
  {
    hide Outbox.Enqueue, ChunkRequest;
    if n < k {
      EnqueueChunksFails(lite, s, chunks, ids, n, k - 1);
    }
  }

  lemma {:induction false} MoveAllFails(locations: map<nat, Location>, destination: nat, m: Move,
      items: seq<MoveItem>, k: nat)
    requires destination in locations && k <= |items| && MoveAll(locations, destination, m, items[..k]).None?
    ensures MoveAll(locations, destination, m, items).None?
    decreases |items| - k
  {
    hide MoveOne;
    if k == |items| {
      assert items[..k] == items;
    } else {
      assert items[..k + 1][..k] == items[..k];
      MoveAllFails(locations, destination, m, items, k + 1);
    }
  }

  /** `apply_qr_replace_command`; on a refused event the caller rolls back what is already flushed. */
  method ApplyQrReplaceCommand(tables: Tables, node: LiteNode.Node, env: QrCommands.Surroundings, c: Inbox.Command)
    returns (ok: bool)
    modifies tables, node
    ensures var r := QrCommands.ApplyReplace(env, QrCommands.App(old(tables.State()), old(node.State())), c);
            ok == r.Done?
            && QrCommands.App(tables.State(), node.State()) == if r.Done? then r.after else r.dirty
  {
    hide QrCommands.Addressed, QrCommands.RelabellingOf, QrCommands.ReplacementEvent, Outbox.Enqueue,
         IsMasterSerial, Replaceable, NumberTaken;
    ghost var app := QrCommands.App(tables.State(), node.State());
    if !QrCommands.Addressed(node.State(), c.payload) {
      return false;
    }
    var parsed := QrCommands.RelabellingOf(c.payload);
    if parsed.None? {
      return false;
    }
    var r := parsed.value;
    var i, j := Lookup(tables.serials, r.oldNumber), tables.nextId;
    ok := tables.ApplyQrReplace(r.oldNumber, r.newNumber, r.expected, env.clock(c.id));
    if ok {
      ok := node.EnqueueOutboxEvent(
        QrCommands.ReplacementEvent(env, c.id, tables.serials[i.value], tables.serials[j]), false);
    }
  }

  lemma NothingMoved(locations: map<nat, Location>, destination: nat, m: Move)
    requires destination in locations
    ensures MoveAll(locations, destination, m, []) == Some(m)
  {
  }

  lemma MoveOneUnfolds(locations: map<nat, Location>, destination: nat, m: Move, item: MoveItem)
    requires destination in locations
    ensures MoveOne(locations, destination, m, item) ==
            if !ItemOk(item, destination) || |PickItem(m, item)| != item.quantity
               || !SameSource(locations, m.serials, PickItem(m, item))
               || |Claimable(m.serials, item, PickItem(m, item))| != item.quantity then None
            else Some(Move(Placed(m.serials, PickItem(m, item), destination, locations[destination].warehouse),
                           m.moved + PickItem(m, item), m.ledger + MoveRows(m.serials, PickItem(m, item))))
  {
    hide PickItem, SameSource, Claimable, Placed, MoveRows;
  }

  lemma MoveAllStep(locations: map<nat, Location>, destination: nat, start: Move, m: Move, items: seq<MoveItem>, k: nat)
    requires destination in locations && k < |items|
    requires MoveAll(locations, destination, start, items[..k]) == Some(m)
    ensures MoveAll(locations, destination, start, items[..k + 1]) == MoveOne(locations, destination, m, items[k])
  {
    hide MoveOne;
    assert items[..k + 1][..k] == items[..k];
  }

  lemma SameStatus(serials: Serials, ids: seq<nat>, location: nat, warehouse: string, i: nat)
    requires i in serials
    ensures Placed(serials, ids, location, warehouse)[i].status == serials[i].status
  {
  }

  lemma PlacedSnoc(serials: Serials, ids: seq<nat>, k: nat, location: nat, warehouse: string)
    requires k < |ids|
    ensures var before := Placed(serials, ids[..k], location, warehouse);
            var after := Placed(serials, ids[..k + 1], location, warehouse);
            after == if ids[k] in before then before[ids[k] := PlaceAt(before[ids[k]], location, warehouse)] else before
  {
    assert ids[..k + 1] == ids[..k] + [ids[k]];
  }

  lemma NothingApplied(batch: Batch, m: Moved)
    ensures batch.items[..0] == [] && ApplyItems(batch, m, []) == Some(m)
  {
  }

  lemma ApplyNextItem(batch: Batch, m: Moved, items: seq<nat>, k: nat)
    requires k < |items| && forall i <- items :: i in m.serials
    requires (forall i <- items[..k] :: i in m.serials) && ApplyItems(batch, m, items[..k]).Some?
    ensures (forall i <- items[..k + 1] :: i in m.serials) && items[k] in ApplyItems(batch, m, items[..k]).value.serials
    ensures ApplyItems(batch, m, items[..k + 1]) == ApplyItem(batch, ApplyItems(batch, m, items[..k]).value, items[k])
  {
    hide ApplyItem;
    assert items[..k + 1][..k] == items[..k] && items[k] in items;
    assert forall i <- items[..k + 1] :: i in items;
  }

  lemma {:induction false} ApplyItemsFails(batch: Batch, m: Moved, items: seq<nat>, k: nat)
    requires k <= |items| && forall i <- items :: i in m.serials
    requires (forall i <- items[..k] :: i in items) && ApplyItems(batch, m, items[..k]).None?
    ensures ApplyItems(batch, m, items).None?
    decreases |items| - k
  {
    hide ApplyItem;
    if k == |items| {
      assert items[..k] == items;
    } else {
      assert items[..k + 1][..k] == items[..k];
      assert forall i <- items[..k + 1] :: i in items;
      ApplyItemsFails(batch, m, items, k + 1);
    }
  }

  lemma AllocatedNothing(serials: Serials, nextId: nat, product: nat, labels: seq<Label>, now: int)
    ensures Allocated(serials, nextId, product, labels[..0], now) == serials
  {
  }

  lemma AllocatedSnoc(serials: Serials, nextId: nat, product: nat, labels: seq<Label>, now: int, k: nat)
    requires k < |labels|
    ensures Allocated(serials, nextId, product, labels[..k + 1], now)
         == Allocated(serials, nextId, product, labels[..k], now)[nextId + k := NewSerial(labels[k], product, now)]
  {
    hide NewSerial;
    assert labels[..k + 1][..k] == labels[..k];
  }

  lemma RepeatsSnoc(labels: seq<Label>, k: nat)
    requires k < |labels| && !Repeats(labels[..k])
    requires forall j :: 0 <= j < k ==> labels[j].number != labels[k].number
    ensures !Repeats(labels[..k + 1])
  {
    var init, more := labels[..k], labels[..k + 1];
    assert forall j :: 0 <= j < k ==> more[j].number == init[j].number;
  }
}
