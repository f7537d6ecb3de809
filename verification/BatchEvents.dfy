/**
 Reporting a submitted batch (`enqueue_batch_submitted_event`, app/services/master_sync.py, as
 app/routers/batches.py calls it): the stock moves and one event with the moved units is queued, in
 one transaction.
 */
module BatchEvents {
  import opened Options
  import opened CanonicalJson
  import opened StockTypes
  import opened DraftBatches
  import opened Outbox

  /** What the event takes from the batch row besides its items; `party` holds party and tax fields. */
  datatype BatchHeader = BatchHeader(
    number: string,
    reference: string,
    actor: Json,
    party: seq<Member>,
    occurredAt: string,
    eventId: string)

  /** The wire type: Master knows no QR assignment, only the stock it results in. */
  function EventTypeOf(kind: BatchType): string {
    match kind
    case Purchase => "PURCHASE"
    case Receive => "RECEIVE"
    case Sale => "SALE"
    case Audit => "AUDIT"
    case PurchaseReturn => "PURCHASE_RETURN"
    case SalesReturn => "SALES_RETURN"
    case Issue => "ISSUE"
    case QrAssignment => "STOCK_SNAPSHOT"
  }

  /** `network_event_item` of each item, in scan order, with the unit as the submission leaves it. */
  function ItemSnapshots(snapshot: (nat, Serial) -> Json, serials: Serials, items: seq<nat>): (r: seq<Json>)
    ensures |r| == |items|
  {
    seq(|items|, k requires 0 <= k < |items| =>
      if items[k] in serials then snapshot(items[k], serials[items[k]]) else Null)
  }

  function BatchRequest(code: string, b: nat, batch: Batch, header: BatchHeader, items: seq<Json>): Request {
    Request(EventTypeOf(batch.kind), BatchAggregate, code + ":" + header.number,
      [Member("reference", Str(header.reference)), Member("actor", header.actor), Member("items", Arr(items))]
      + header.party
      + [Member("reason_code", if batch.reason == "" then Null else Str(batch.reason))],
      header.occurredAt, Some(b), header.eventId)
  }

  /** `submit_batch` on a Lite node. */
  function SubmitAndReport(st: Stock, lite: Lite, b: nat, checks: bool, header: BatchHeader,
                           snapshot: (nat, Serial) -> Json): Option<(Stock, Lite)>
  {
    var stock :- Submit(st, b, checks);
    var code :- ConfiguredCode(lite.code);
    var batch := st.batches[b];
    var queued :- SubmitBatch(lite, b,
        BatchRequest(code, b, batch, header, ItemSnapshots(snapshot, stock.serials, batch.items)));
    Some((stock, queued))
  }

  lemma EnqueueIsSnoc(lite: Lite, r: Request)
    requires Enqueue(lite, r).Some?
    ensures Enqueue(lite, r).value == lite.(events := lite.events + [Frozen(r, |lite.events| + 1)])
  {
    hide Frozen, Initialized, HasEventId;
  }

  /** The event that reports a submission, frozen at the end of the queue. */
  ghost function SubmissionEvent(st: Stock, lite: Lite, b: nat, header: BatchHeader,
      snapshot: (nat, Serial) -> Json): Event
    requires b in st.batches && ConfiguredCode(lite.code).Some?
  {
    var batch := st.batches[b];
    Frozen(BatchRequest(ConfiguredCode(lite.code).value, b, batch, header,
                        ItemSnapshots(snapshot, Shifted(st.serials, batch, batch.items), batch.items)),
           |lite.events| + 1)
  }

  /**
   A committed submission queues exactly one event, whose items are the batch's units, each once, in
   scan order and with their new status; a refused one leaves stock and outbox alone.
   */
  lemma SubmissionIsReported(st: Stock, lite: Lite, b: nat, checks: bool, header: BatchHeader,
      snapshot: (nat, Serial) -> Json)
    requires SubmitAndReport(st, lite, b, checks, header, snapshot).Some?
    requires b in st.batches && Distinct(st.batches[b].items)
    ensures ConfiguredCode(lite.code).Some?
    ensures var (stock, queued) := SubmitAndReport(st, lite, b, checks, header, snapshot).value;
            Submit(st, b, checks) == Some(stock)
            && queued == lite.(events := lite.events + [SubmissionEvent(st, lite, b, header, snapshot)],
                               batches := lite.batches[b := PendingSync])
  {
    hide ConfiguredCode, Enqueue, Submit, Frozen, Distinct, Shifted, Rows, Complete, AllAdmissible, EventTypeOf,
         ItemSnapshots;
    assert IsOpen(st, b) by { SubmittedWasOpen(st, b, checks); }
    SubmitExactly(st, b, checks);
    var batch := st.batches[b];
    EnqueueIsSnoc(lite, BatchRequest(ConfiguredCode(lite.code).value, b, batch, header,
      ItemSnapshots(snapshot, Shifted(st.serials, batch, batch.items), batch.items)));
  }

  lemma SubmittedWasOpen(st: Stock, b: nat, checks: bool)
    requires Submit(st, b, checks).Some?
    ensures IsOpen(st, b)
  {
  }
}
