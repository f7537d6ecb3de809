/**
 The inventory log (`log_inventory_transaction`, app/services/inventory.py): reading a unit's
 history off it, and what a well-formed log says about sales and returns.
 */
module StockLedger {
  import opened StockTypes
  import opened DraftBatches

  /** The status the log leaves a unit in. */
  ghost function StatusAfter(ledger: seq<Txn>, i: nat, origin: SerialStatus): SerialStatus {
    if ledger == [] then origin
    else
      var t := ledger[|ledger| - 1];
      if t.serial == i then t.to else StatusAfter(ledger[..|ledger| - 1], i, origin)
  }

  /** What a row of each kind may record. */
  ghost predicate ShapeOk(t: Txn) {
    match t.kind
    case PurchaseTxn => (t.from == Generated || t.from == PurchaseReturned) && t.to == InStock
    case SaleTxn => (t.from == InStock || t.from == Returned) && t.to == Sold
    case SalesReturnTxn => t.from == Sold && (t.to == InStock || t.to == Damaged)
    case PurchaseReturnTxn => (t.from == InStock || t.from == Returned) && t.to == PurchaseReturned
    case IssueTxn => t.from == InStock && t.to == Issued
    case AuditTxn => t.from == t.to
    case QrAssignmentTxn => t.from == Generated && t.to == Generated
    case RelocationTxn => t.from == t.to && (t.to == InStock || t.to == Returned)
    case TransferOutTxn => t.from == InStock && t.to == InTransit
    case TransferInTxn => t.from == InTransit && t.to == InStock
  }

  /** Each row starts where the unit's previous row ended, or at its first status. */
  ghost predicate Chained(serials: Serials, ledger: seq<Txn>)
    decreases |ledger|
  {
    ledger == []
    || (var t := ledger[|ledger| - 1];
        Chained(serials, ledger[..|ledger| - 1]) && ShapeOk(t) && t.serial in serials
        && t.from == StatusAfter(ledger[..|ledger| - 1], t.serial, serials[t.serial].origin))
  }

  /** A row that stands for a unit: its label is in use, or it is away on a transfer. */
  predicate Traced(s: Serial) {
    s.active || s.status == InTransit
  }

  /** The log links up, and ends at the current status of every traced unit. */
  ghost predicate LedgerOk(serials: Serials, ledger: seq<Txn>) {
    Chained(serials, ledger)
    && forall i :: i in serials && Traced(serials[i]) ==> StatusAfter(ledger, i, serials[i].origin) == serials[i].status
  }

  ghost function Count(ledger: seq<Txn>, kind: TxnKind, i: nat): nat {
    if ledger == [] then 0
    else
      var t := ledger[|ledger| - 1];
      Count(ledger[..|ledger| - 1], kind, i) + if t.kind == kind && t.serial == i then 1 else 0
  }

  ghost function SoldUnit(status: SerialStatus): int {
    if status == Sold then 1 else 0
  }

  /** The difference of sales and returns is the difference of being sold. */
  lemma {:induction false} SaleBalance(serials: Serials, ledger: seq<Txn>, i: nat)
    requires Chained(serials, ledger) && i in serials
    ensures Count(ledger, SaleTxn, i) - Count(ledger, SalesReturnTxn, i)
         == SoldUnit(StatusAfter(ledger, i, serials[i].origin)) - SoldUnit(serials[i].origin)
    decreases |ledger|
  {
    if ledger != [] {
      SaleBalance(serials, ledger[..|ledger| - 1], i);
    }
  }

  // ----- Appending rows -----

  lemma StatusAfterRow(ledger: seq<Txn>, t: Txn, i: nat, origin: SerialStatus)
    ensures StatusAfter(ledger + [t], i, origin) == if t.serial == i then t.to else StatusAfter(ledger, i, origin)
  {
    assert (ledger + [t])[..|ledger|] == ledger;
  }

  ghost predicate DistinctRows(rows: seq<Txn>) {
    forall j, k :: 0 <= j < k < |rows| ==> rows[j].serial != rows[k].serial
  }

  /** Rows for different units, each starting from its unit's current status. */
  ghost predicate RowsFollow(serials: Serials, ledger: seq<Txn>, rows: seq<Txn>) {
    DistinctRows(rows)
    && forall t <- rows ::
         ShapeOk(t) && t.serial in serials && t.from == StatusAfter(ledger, t.serial, serials[t.serial].origin)
  }

  lemma RowsFollowInit(serials: Serials, ledger: seq<Txn>, rows: seq<Txn>)
    requires rows != [] && RowsFollow(serials, ledger, rows)
    ensures RowsFollow(serials, ledger, rows[..|rows| - 1])
  {
    hide ShapeOk, StatusAfter;
    var init := rows[..|rows| - 1];
    assert forall t <- init :: t in rows;
  }

  lemma {:induction false} StatusUntouched(ledger: seq<Txn>, rows: seq<Txn>, i: nat, origin: SerialStatus)
    requires forall t <- rows :: t.serial != i
    ensures StatusAfter(ledger + rows, i, origin) == StatusAfter(ledger, i, origin)
    decreases |rows|
  {
    if rows == [] {
      assert ledger + rows == ledger;
    } else {
      var init := rows[..|rows| - 1];
      assert forall t <- init :: t in rows;
      assert ledger + rows == (ledger + init) + [rows[|rows| - 1]];
      StatusUntouched(ledger, init, i, origin);
      StatusAfterRow(ledger + init, rows[|rows| - 1], i, origin);
    }
  }

  lemma {:induction false} StatusOfRow(ledger: seq<Txn>, rows: seq<Txn>, k: nat, origin: SerialStatus)
    requires k < |rows| && DistinctRows(rows)
    ensures StatusAfter(ledger + rows, rows[k].serial, origin) == rows[k].to
  {
    var i := rows[k].serial;
    assert ledger + rows == ((ledger + rows[..k]) + [rows[k]]) + rows[k + 1..];
    forall t | t in rows[k + 1..]
      ensures t.serial != i
    {
      var m :| 0 <= m < |rows[k + 1..]| && rows[k + 1..][m] == t;
      assert rows[k + 1 + m] == t;
    }
    StatusUntouched((ledger + rows[..k]) + [rows[k]], rows[k + 1..], i, origin);
    StatusAfterRow(ledger + rows[..k], rows[k], i, origin);
  }

  lemma ChainedSnoc(serials: Serials, ledger: seq<Txn>, t: Txn)
    requires Chained(serials, ledger) && ShapeOk(t) && t.serial in serials
    requires t.from == StatusAfter(ledger, t.serial, serials[t.serial].origin)
    ensures Chained(serials, ledger + [t])
  {
    hide ShapeOk, StatusAfter;
    assert (ledger + [t])[..|ledger|] == ledger;
  }

  /** The last of the rows still starts from its unit's status before all of them. */
  lemma LastRowFollows(serials: Serials, ledger: seq<Txn>, rows: seq<Txn>)
    requires rows != [] && RowsFollow(serials, ledger, rows)
    ensures var t := rows[|rows| - 1];
            ShapeOk(t) && t.serial in serials
            && t.from == StatusAfter(ledger + rows[..|rows| - 1], t.serial, serials[t.serial].origin)
  {
    hide ShapeOk, StatusAfter;
    var init, t := rows[..|rows| - 1], rows[|rows| - 1];
    assert t in rows;
    forall u | u in init
      ensures u.serial != t.serial
    {
      var m :| 0 <= m < |init| && init[m] == u;
      assert rows[m] == u;
    }
    StatusUntouched(ledger, init, t.serial, serials[t.serial].origin);
  }

  lemma {:induction false} AppendKeepsChained(serials: Serials, ledger: seq<Txn>, rows: seq<Txn>)
    requires Chained(serials, ledger) && RowsFollow(serials, ledger, rows)
    ensures Chained(serials, ledger + rows)
    decreases |rows|
  {
    hide *;
    if rows == [] {
      assert ledger + rows == ledger;
    } else {
      var init, t := rows[..|rows| - 1], rows[|rows| - 1];
      RowsFollowInit(serials, ledger, rows);
      AppendKeepsChained(serials, ledger, init);
      LastRowFollows(serials, ledger, rows);
      ChainedSnoc(serials, ledger + init, t);
      assert ledger + rows == ledger + init + [t];
    }
  }

  /** The log's reading depends only on where each unit started. */
  lemma {:induction false} ChainedFrame(serials: Serials, other: Serials, ledger: seq<Txn>)
    requires Chained(serials, ledger)
    requires forall i :: i in serials ==> i in other && other[i].origin == serials[i].origin
    ensures Chained(other, ledger)
    decreases |ledger|
  {
    hide ShapeOk;
    if ledger != [] {
      ChainedFrame(serials, other, ledger[..|ledger| - 1]);
    }
  }

  lemma {:induction false} ChainedSerials(serials: Serials, ledger: seq<Txn>, i: nat, origin: SerialStatus)
    requires Chained(serials, ledger) && i !in serials
    ensures StatusAfter(ledger, i, origin) == origin
    decreases |ledger|
  {
    hide ShapeOk;
    if ledger != [] {
      ChainedSerials(serials, ledger[..|ledger| - 1], i, origin);
    }
  }

  // ----- Submitted batches -----

  lemma TargetShape(batch: Batch, s: Serial, i: nat)
    requires Admissible(s, batch.kind)
    ensures ShapeOk(Txn(TxnKindOf(batch.kind), i, s.status, Target(batch, s.status)))
  {
  }

  /**
   A batch takes exactly the labels in use whose status its transaction may move; an audit, which
   moves none, takes every label that has been assigned.
   */
  lemma AdmissibleExactly(batch: Batch, s: Serial, i: nat)
    ensures Admissible(s, batch.kind) <==>
            s.active && s.status != Invalid && s.status != Replaced
            && ShapeOk(Txn(TxnKindOf(batch.kind), i, s.status, Target(batch, s.status)))
            && (batch.kind == Audit ==> s.status != Generated)
  {
  }

  lemma SubmittedRowsFollow(serials: Serials, ledger: seq<Txn>, batch: Batch)
    requires LedgerOk(serials, ledger) && AllAdmissible(serials, batch) && Distinct(batch.items)
    ensures RowsFollow(serials, ledger, Rows(serials, batch, batch.items))
  {
    hide ShapeOk, Chained, StatusAfter, Target, TxnKindOf;
    var rows := Rows(serials, batch, batch.items);
    forall t | t in rows
      ensures ShapeOk(t) && t.serial in serials && t.from == StatusAfter(ledger, t.serial, serials[t.serial].origin)
    {
      var k :| 0 <= k < |rows| && rows[k] == t;
      var i := batch.items[k];
      assert i in batch.items;
      assert serials[i].active by { AdmissibleIsActive(serials[i], batch.kind); }
      TargetShape(batch, serials[i], i);
    }
  }

  lemma AdmissibleIsActive(s: Serial, kind: BatchType)
    requires Admissible(s, kind)
    ensures s.active
  {
  }

  /** Submitting a batch keeps every history linked, up to the new status of each item. */
  lemma SubmitKeepsLedger(serials: Serials, ledger: seq<Txn>, batch: Batch)
    requires LedgerOk(serials, ledger) && AllAdmissible(serials, batch) && Distinct(batch.items)
    ensures LedgerOk(Shifted(serials, batch, batch.items), ledger + Rows(serials, batch, batch.items))
  {
    hide ShapeOk, Chained, StatusAfter, Target, TxnKindOf, Admissible, RowsFollow;
    var rows, after := Rows(serials, batch, batch.items), Shifted(serials, batch, batch.items);
    SubmittedRowsFollow(serials, ledger, batch);
    AppendKeepsChained(serials, ledger, rows);
    ChainedFrame(serials, after, ledger + rows);
    assert DistinctRows(rows);
    forall i | i in after && Traced(after[i])
      ensures StatusAfter(ledger + rows, i, after[i].origin) == after[i].status
    {
      if i in batch.items {
        var k :| 0 <= k < |batch.items| && batch.items[k] == i;
        StatusOfRow(ledger, rows, k, after[i].origin);
      } else {
        StatusUntouched(ledger, rows, i, after[i].origin);
      }
    }
  }

  // ----- Rows that record no change, and rows that move units alike -----

  /** Rows for different units in use, from their status to one that the new table gives them. */
  lemma RowsKeepLedger(serials: Serials, other: Serials, ledger: seq<Txn>, rows: seq<Txn>)
    requires LedgerOk(serials, ledger) && DistinctRows(rows)
    requires forall t <- rows :: (ShapeOk(t) && t.serial in serials && serials[t.serial].active
                                  && t.from == serials[t.serial].status)
    requires serials.Keys == other.Keys
    requires forall i :: i in serials ==> other[i].origin == serials[i].origin && other[i].active == serials[i].active
    requires forall t <- rows :: other[t.serial].status == t.to
    requires forall i :: i in serials && other[i].status != serials[i].status ==> exists t <- rows :: t.serial == i
    ensures LedgerOk(other, ledger + rows)
  {
    hide ShapeOk, Chained, StatusAfter;
    assert RowsFollow(serials, ledger, rows);
    AppendKeepsChained(serials, ledger, rows);
    ChainedFrame(serials, other, ledger + rows);
    forall i | i in other && Traced(other[i])
      ensures StatusAfter(ledger + rows, i, other[i].origin) == other[i].status
    {
      if t :| t in rows && t.serial == i {
        var k :| 0 <= k < |rows| && rows[k] == t;
        StatusOfRow(ledger, rows, k, other[i].origin);
      } else {
        StatusUntouched(ledger, rows, i, other[i].origin);
      }
    }
  }

  /** Changes that keep origins, and the status of whatever stays traced. */
  lemma LedgerFrame(serials: Serials, other: Serials, ledger: seq<Txn>)
    requires LedgerOk(serials, ledger)
    requires forall i :: i in serials ==> i in other && other[i].origin == serials[i].origin
    requires forall i :: i in serials && Traced(other[i]) ==> Traced(serials[i]) && other[i].status == serials[i].status
    requires forall i :: i in other && i !in serials ==> other[i].origin == other[i].status
    ensures LedgerOk(other, ledger)
  {
    hide Chained, StatusAfter;
    ChainedFrame(serials, other, ledger);
    forall i | i in other && Traced(other[i])
      ensures StatusAfter(ledger, i, other[i].origin) == other[i].status
    {
      if i !in serials {
        ChainedSerials(serials, ledger, i, other[i].origin);
      }
    }
  }
}
