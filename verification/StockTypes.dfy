/** The rows of the stock machine (app/models.py): serials, batches, locations and the transaction log. */
module StockTypes {
  import opened Options
  import EnvText
  import Text

  datatype SerialStatus =
    | Generated | Purchased | Received | InStock | Sold | Returned | PurchaseReturned | Issued
    | Audited | Damaged | Missing | Invalid | Replaced | InTransit

  datatype BatchType = Purchase | Receive | Sale | Audit | PurchaseReturn | SalesReturn | Issue | QrAssignment

  datatype TxnKind =
    | PurchaseTxn | SaleTxn | SalesReturnTxn | PurchaseReturnTxn | IssueTxn | AuditTxn | QrAssignmentTxn | RelocationTxn
    | TransferOutTxn | TransferInTxn

  /** One QR-labelled unit. `origin` is the status it was created or first recorded with. */
  datatype Serial = Serial(
    number: string,
    product: nat,
    origin: SerialStatus,
    status: SerialStatus,
    active: bool,
    lot: Option<string>,
    mfgDate: Option<int>,
    expiry: Option<int>,
    createdAt: int,
    location: Option<nat>,
    warehouse: Option<string>,
    replacedBy: Option<nat>)

  type Serials = map<nat, Serial>

  /**
   A batch; `items` and `pending` (returns waiting for a shelf) hold serial ids, in scan order, and
   `verified` the items whose shelf has been scanned.
   */
  datatype Batch = Batch(
    kind: BatchType,
    draft: bool,
    reason: string,
    items: seq<nat>,
    pending: seq<nat>,
    verified: set<nat>)

  /** One row of the inventory log. */
  datatype Txn = Txn(kind: TxnKind, serial: nat, from: SerialStatus, to: SerialStatus)

  datatype Location = Location(active: bool, warehouse: string, path: string)

  /** The stock tables. Every serial id in use is below `nextId`. */
  datatype Stock = Stock(
    serials: Serials,
    nextId: nat,
    batches: map<nat, Batch>,
    ledger: seq<Txn>)

  // ----- Looking a serial up by its number -----

  predicate NumberTaken(serials: Serials, number: string) {
    exists i <- serials :: serials[i].number == number
  }

  /** `normalize_serial`. */
  function Normalize(text: string): string {
    Text.Upper(EnvText.Strip(text))
  }

  /** The row with this number; the lowest id if the table ever held two. */
  ghost predicate IsLookup(serials: Serials, number: string, i: nat) {
    i in serials && serials[i].number == number && forall j :: j in serials && serials[j].number == number ==> i <= j
  }

  lemma LookupExists(serials: Serials, number: string, i: nat)
    requires i in serials && serials[i].number == number
    ensures exists f :: IsLookup(serials, number, f)
    decreases i
  {
    if j: nat :| j in serials && serials[j].number == number && j < i {
      LookupExists(serials, number, j);
    } else {
      assert IsLookup(serials, number, i);
    }
  }

  function Lookup(serials: Serials, number: string): (found: Option<nat>)
    ensures found.Some? ==> found.value in serials && serials[found.value].number == number
    ensures found.None? ==> !NumberTaken(serials, number)
  {
    if NumberTaken(serials, number) then
      var some :| some in serials && serials[some].number == number;
      LookupExists(serials, number, some);
      var i :| i in serials && serials[i].number == number
        && forall j <- serials :: serials[j].number == number ==> i <= j;
      Some(i)
    else None
  }
}
