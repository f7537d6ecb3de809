/**
 What a submission does to the stock, as a table (app/services/inventory.py): from which status to which each kind of
 batch takes its units, and under which kind of row the move is logged.
 */
module SubmissionTable {
  import opened Options
  import opened StockTypes
  import opened DraftBatches

  datatype Transition = Transition(to: SerialStatus, row: TxnKind)

  /** The table; a status that is not listed is refused. */
  function MoveOf(kind: BatchType, reason: string, from: SerialStatus): Option<Transition> {
    match (kind, from)
    case (Purchase, Generated) => Some(Transition(InStock, PurchaseTxn))
    case (Purchase, PurchaseReturned) => Some(Transition(InStock, PurchaseTxn))
    case (Receive, Generated) => Some(Transition(InStock, PurchaseTxn))
    case (Receive, PurchaseReturned) => Some(Transition(InStock, PurchaseTxn))
    case (Sale, InStock) => Some(Transition(Sold, SaleTxn))
    case (Sale, Returned) => Some(Transition(Sold, SaleTxn))
    case (PurchaseReturn, InStock) => Some(Transition(PurchaseReturned, PurchaseReturnTxn))
    case (PurchaseReturn, Returned) => Some(Transition(PurchaseReturned, PurchaseReturnTxn))
    case (SalesReturn, Sold) =>
      Some(Transition(if reason in {"DAMAGED", "EXPIRED"} then Damaged else InStock, SalesReturnTxn))
    case (Issue, InStock) => Some(Transition(Issued, IssueTxn))
    case (QrAssignment, Generated) => Some(Transition(Generated, QrAssignmentTxn))
    case (Audit, _) =>
      if from in {Generated, Replaced, Invalid} then None else Some(Transition(from, AuditTxn))
    case (_, _) => None
  }

  /** The batch has items, no return waits for a shelf, and every shelf that must be scanned has been. */
  ghost predicate Finished(batch: Batch, checks: bool) {
    checks && batch.items != []
    && (batch.kind == Sale ==> batch.pending == [])
    && (batch.kind in {Purchase, Receive, Audit} ==> forall i <- batch.items :: i in batch.verified)
  }

  ghost predicate MayGo(serials: Serials, batch: Batch) {
    forall i <- batch.items ::
      i in serials && serials[i].active && MoveOf(batch.kind, batch.reason, serials[i].status).Some?
  }

  /** The unit's row, moved as the table says, and nothing else about it. */
  ghost predicate RowMoved(batch: Batch, s: Serial, after: Serial) {
    after == s.(status := after.status)
    && Some(after.status) == match MoveOf(batch.kind, batch.reason, s.status) {
      case None => None
      case Some(move) => Some(move.to)
    }
  }

  ghost predicate RowLogged(batch: Batch, i: nat, s: Serial, t: Txn) {
    MoveOf(batch.kind, batch.reason, s.status) == Some(Transition(t.to, t.kind)) && t.serial == i && t.from == s.status
  }

  /** The batch is submitted, its units are moved and logged in scan order, and nothing else changes. */
  ghost predicate Went(st: Stock, b: nat, after: Stock)
    requires b in st.batches
  {
    var batch, n := st.batches[b], |st.ledger|;
    after.nextId == st.nextId && after.batches == st.batches[b := batch.(draft := false)]
    && after.serials.Keys == st.serials.Keys
    && (forall i <- st.serials ::
          if i in batch.items then RowMoved(batch, st.serials[i], after.serials[i])
          else after.serials[i] == st.serials[i])
    && |after.ledger| == n + |batch.items| && after.ledger[..n] == st.ledger
    && forall k :: 0 <= k < |batch.items| ==>
         batch.items[k] in st.serials
         && RowLogged(batch, batch.items[k], st.serials[batch.items[k]], after.ledger[n + k])
  }

  lemma AdmissibleByTable(s: Serial, batch: Batch)
    ensures Admissible(s, batch.kind) <==> s.active && MoveOf(batch.kind, batch.reason, s.status).Some?
    ensures Admissible(s, batch.kind) ==>
              MoveOf(batch.kind, batch.reason, s.status)
                == Some(Transition(Target(batch, s.status), TxnKindOf(batch.kind)))
  {
  }

  lemma CompleteByTable(batch: Batch, checks: bool)
    ensures Complete(batch, checks) <==> Finished(batch, checks)
  {
    if ShelfControlled(batch.kind) {
      var left := Excluding(batch.items, batch.verified);
      assert left != [] ==> left[0] in left;
      assert left == [] ==> forall i <- batch.items :: i in left || i in batch.verified;
    }
  }

  /** A batch of different units is submitted exactly when it is finished and the table lists a move for each unit. */
  lemma SubmitByTable(st: Stock, b: nat, checks: bool)
    requires IsOpen(st, b) && Distinct(st.batches[b].items)
    ensures Submit(st, b, checks).Some? <==> Finished(st.batches[b], checks) && MayGo(st.serials, st.batches[b])
    ensures Submit(st, b, checks).Some? ==> Went(st, b, Submit(st, b, checks).value)
  {
    hide Complete, Finished, Admissible, Target, TxnKindOf, MoveOf, Submit;
    var batch := st.batches[b];
    CompleteByTable(batch, checks);
    forall i | i in st.serials
      ensures Admissible(st.serials[i], batch.kind) <==>
                st.serials[i].active && MoveOf(batch.kind, batch.reason, st.serials[i].status).Some?
      ensures Admissible(st.serials[i], batch.kind) ==>
                MoveOf(batch.kind, batch.reason, st.serials[i].status)
                  == Some(Transition(Target(batch, st.serials[i].status), TxnKindOf(batch.kind)))
    {
      AdmissibleByTable(st.serials[i], batch);
    }
    SubmitExactly(st, b, checks);
  }
}
