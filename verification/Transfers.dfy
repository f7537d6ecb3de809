/**
 Transfers between franchises (app/services/transfer.py), as far as they change the stock tables:
 a dispatch sends units in stock on their way, Master's confirmation takes them out of use, an
 incoming manifest announces units, old ones returning among them, and a receipt puts them in stock.
 Which units a transfer names is an input.
 */
module Transfers {
  import opened Options
  import opened StockTypes
  import opened DraftBatches

  const MAX_TRANSFER_ITEMS := 5000

  // ----- Conditional updates, one a unit -----

  /** The claim loop: every unit is in use with status `from`, and moves to status `to`. */
  function ClaimEach(serials: Serials, ids: seq<nat>, from: SerialStatus, to: SerialStatus): (r: Option<Serials>)
    decreases |ids|
  {
    if ids == [] then Some(serials)
    else
      var before :- ClaimEach(serials, ids[..|ids| - 1], from, to);
      Claim(before, ids[|ids| - 1], from, to)
  }

  function TransferRows(kind: TxnKind, ids: seq<nat>, from: SerialStatus, to: SerialStatus): (rows: seq<Txn>)
    ensures |rows| == |ids|
  {
    seq(|ids|, k requires 0 <= k < |ids| => Txn(kind, ids[k], from, to))
  }

  /** `dispatch_outbound_transfer`. */
  function DispatchUnits(st: Stock, ids: seq<nat>): Option<Stock> {
    if !(1 <= |ids| <= MAX_TRANSFER_ITEMS) then None
    else
      var serials :- ClaimEach(st.serials, ids, InStock, InTransit);
      Some(st.(serials := serials, ledger := st.ledger + TransferRows(TransferOutTxn, ids, InStock, InTransit)))
  }

  /** `finalize_inbound_receipt`. */
  function ReceiveUnits(st: Stock, ids: seq<nat>): Option<Stock> {
    if ids == [] then None
    else
      var serials :- ClaimEach(st.serials, ids, InTransit, InStock);
      Some(st.(serials := serials, ledger := st.ledger + TransferRows(TransferInTxn, ids, InTransit, InStock)))
  }

  /** The units of `ids`, out of use. */
  function Departed(serials: Serials, ids: seq<nat>): (r: Serials)
    ensures r.Keys == serials.Keys
  {
    map i | i in serials :: if i in ids then serials[i].(active := false) else serials[i]
  }

  predicate OnTheWay(serials: Serials, i: nat) {
    i in serials && serials[i].active && serials[i].status == InTransit
  }

  /** `apply_transfer_receipt_command`, on dispatched units that have not been confirmed before. */
  function Confirm(st: Stock, ids: seq<nat>): Option<Stock> {
    if exists i <- ids :: !OnTheWay(st.serials, i) then None else Some(st.(serials := Departed(st.serials, ids)))
  }

  /** One line of an incoming manifest. */
  datatype Arrival = Arrival(
    number: string,
    product: nat,
    lot: Option<string>,
    mfgDate: Option<int>,
    expiry: Option<int>,
    warehouse: Option<string>)

  function ArrivingSerial(a: Arrival, now: int): Serial {
    Serial(a.number, a.product, InTransit, InTransit, true, a.lot, a.mfgDate, a.expiry, now, None, a.warehouse, None)
  }

  /** `_reactivate_returning_serial`: the manifest's lot, dates and warehouse replace the row's. */
  function Reactivated(s: Serial, a: Arrival): Serial {
    s.(active := true, lot := a.lot, mfgDate := a.mfgDate, expiry := a.expiry, warehouse := a.warehouse,
        location := None)
  }

  /** A row that has gone out with a completed transfer and may come back. */
  predicate Away(s: Serial) {
    !s.active && s.status == InTransit
  }

  function ArriveOne(st: Stock, a: Arrival, now: int): Option<Stock> {
    match Lookup(st.serials, a.number)
    case None => Some(st.(serials := st.serials[st.nextId := ArrivingSerial(a, now)], nextId := st.nextId + 1))
    case Some(i) =>
      if !Away(st.serials[i]) || st.serials[i].product != a.product then None
      else Some(st.(serials := st.serials[i := Reactivated(st.serials[i], a)]))
  }

  predicate RepeatsNumber(manifest: seq<Arrival>) {
    exists j, k :: 0 <= j < k < |manifest| && manifest[j].number == manifest[k].number
  }

  function ArriveAll(st: Stock, manifest: seq<Arrival>, now: int): Option<Stock>
    decreases |manifest|
  {
    if manifest == [] then Some(st)
    else
      var before :- ArriveAll(st, manifest[..|manifest| - 1], now);
      ArriveOne(before, manifest[|manifest| - 1], now)
  }

  /** `apply_transfer_available_command`, for a transfer not seen before. */
  function Arrive(st: Stock, manifest: seq<Arrival>, now: int): Option<Stock> {
    if manifest == [] || RepeatsNumber(manifest) then None else ArriveAll(st, manifest, now)
  }

  // ----- What the claim loop does -----

  function Restatused(serials: Serials, ids: seq<nat>, to: SerialStatus): (r: Serials)
    ensures r.Keys == serials.Keys
  {
    map i | i in serials :: if i in ids then serials[i].(status := to) else serials[i]
  }

  lemma RestatusOne(serials: Serials, init: seq<nat>, i: nat, to: SerialStatus)
    requires i in serials && i !in init
    ensures var was := Restatused(serials, init, to);
            was[i] == serials[i] && Restatused(serials, init + [i], to) == was[i := was[i].(status := to)]
  {
  }

  /** Different units in use with this status. */
  predicate MayMove(serials: Serials, ids: seq<nat>, from: SerialStatus) {
    Distinct(ids) && forall i <- ids :: i in serials && serials[i].active && serials[i].status == from
  }

  lemma ClaimNext(serials: Serials, init: seq<nat>, i: nat, from: SerialStatus, to: SerialStatus)
    requires from != to
    ensures Claim(Restatused(serials, init, to), i, from, to) ==
            if i !in init && i in serials && serials[i].active && serials[i].status == from
            then Some(Restatused(serials, init + [i], to)) else None
  {
    if i in serials && i !in init {
      RestatusOne(serials, init, i, to);
    }
  }

  /** The loop succeeds exactly on different units in use with the right status, and moves just those. */
  lemma {:induction false} ClaimEachExactly(serials: Serials, ids: seq<nat>, from: SerialStatus, to: SerialStatus)
    requires from != to
    ensures ClaimEach(serials, ids, from, to) ==
            if MayMove(serials, ids, from) then Some(Restatused(serials, ids, to)) else None
    decreases |ids|
  {
    hide Claim, MayMove, Restatused;
    if ids == [] {
      ClaimNone(serials, from, to);
    } else {
      var init, i := ids[..|ids| - 1], ids[|ids| - 1];
      ClaimEachExactly(serials, init, from, to);
      ClaimNext(serials, init, i, from, to);
      MayMoveSnoc(serials, init, i, from);
      assert ids == init + [i];
    }
  }

  lemma ClaimNone(serials: Serials, from: SerialStatus, to: SerialStatus)
    ensures MayMove(serials, [], from) && Restatused(serials, [], to) == serials
  {
  }

  lemma MayMoveSnoc(serials: Serials, init: seq<nat>, i: nat, from: SerialStatus)
    ensures MayMove(serials, init + [i], from) <==>
            MayMove(serials, init, from) && i !in init && i in serials && serials[i].active && serials[i].status == from
  {
    var ids := init + [i];
    assert forall x :: x in ids <==> x in init || x == i;
    assert forall k :: 0 <= k < |init| ==> ids[k] == init[k];
    assert ids[|init|] == i;
    assert i in init ==> exists k :: 0 <= k < |init| && ids[k] == i;
  }
}
