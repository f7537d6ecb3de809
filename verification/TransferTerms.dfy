/**
 Transfers in terms of the rows (app/services/transfer.py:193-262, 366-540, 612-688 and 725-771): when each call is
 accepted, and which rows and log rows there are afterwards.
 */
module TransferTerms {
  import opened Options
  import opened StockTypes
  import opened Replacement
  import opened Transfers

  // ----- Dispatches, receipts and confirmations -----

  /** Different units, all of them in use with this status. */
  ghost predicate AllAre(serials: Serials, ids: seq<nat>, status: SerialStatus) {
    && (forall j, k :: 0 <= j < k < |ids| ==> ids[j] != ids[k])
    && forall k :: 0 <= k < |ids| ==> ids[k] in serials && serials[ids[k]].active && serials[ids[k]].status == status
  }

  /** Just these units have the other status now, and each move is logged, in order. */
  ghost predicate AllMoved(st: Stock, after: Stock, ids: seq<nat>, kind: TxnKind, from: SerialStatus,
                           to: SerialStatus) {
    && after == st.(serials := after.serials, ledger := after.ledger) && after.serials.Keys == st.serials.Keys
    && (forall i <- st.serials ::
          after.serials[i] == if i in ids then st.serials[i].(status := to) else st.serials[i])
    && |after.ledger| == |st.ledger| + |ids| && after.ledger[..|st.ledger|] == st.ledger
    && forall k :: 0 <= k < |ids| ==> after.ledger[|st.ledger| + k] == Txn(kind, ids[k], from, to)
  }

  lemma MayMoveInTerms(serials: Serials, ids: seq<nat>, status: SerialStatus)
    ensures MayMove(serials, ids, status) <==> AllAre(serials, ids, status)
  {
    assert forall k :: 0 <= k < |ids| ==> ids[k] in ids;
  }

  /** A dispatch is accepted exactly for 1 to 5000 different units in stock, which are on their way then. */
  lemma DispatchInTerms(st: Stock, ids: seq<nat>)
    ensures var r := DispatchUnits(st, ids);
            (r.Some? <==> 1 <= |ids| <= 5000 && AllAre(st.serials, ids, InStock))
            && (r.Some? ==> AllMoved(st, r.value, ids, TransferOutTxn, InStock, InTransit))
  {
    hide MayMove, AllAre;
    ClaimEachExactly(st.serials, ids, InStock, InTransit);
    MayMoveInTerms(st.serials, ids, InStock);
  }

  /** A receipt is accepted exactly for different units that are on their way, which are in stock then. */
  lemma ReceiptInTerms(st: Stock, ids: seq<nat>)
    ensures var r := ReceiveUnits(st, ids);
            (r.Some? <==> ids != [] && AllAre(st.serials, ids, InTransit))
            && (r.Some? ==> AllMoved(st, r.value, ids, TransferInTxn, InTransit, InStock))
  {
    hide MayMove, AllAre;
    ClaimEachExactly(st.serials, ids, InTransit, InStock);
    MayMoveInTerms(st.serials, ids, InTransit);
  }

  /** A confirmation is accepted exactly for units that are on their way, and takes them out of use. */
  lemma ConfirmationInTerms(st: Stock, ids: seq<nat>)
    ensures var r := Confirm(st, ids);
            (r.Some? <==>
              forall i <- ids :: i in st.serials && st.serials[i].active && st.serials[i].status == InTransit)
            && (r.Some? ==>
                  r.value == st.(serials := r.value.serials) && r.value.serials.Keys == st.serials.Keys
                  && forall i <- st.serials ::
                       r.value.serials[i] == if i in ids then st.serials[i].(active := false) else st.serials[i])
  {
  }

  // ----- Manifests -----

  /** The row that has this number. */
  ghost predicate Numbers(serials: Serials, number: string, i: nat) {
    i in serials && serials[i].number == number
  }

  /** A line may arrive if its number is new here, or its unit has left for good and is of the same product. */
  ghost predicate MayArrive(serials: Serials, a: Arrival) {
    forall i :: Numbers(serials, a.number, i) ==>
      !serials[i].active && serials[i].status == InTransit && serials[i].product == a.product
  }

  /** Its row: a unit on its way, with the manifest's data; one that was here before keeps what only it knows. */
  ghost predicate HasArrived(serials: Serials, a: Arrival, now: int, s: Serial) {
    && s.number == a.number && s.product == a.product && s.status == InTransit && s.active
    && s.lot == a.lot && s.mfgDate == a.mfgDate && s.expiry == a.expiry
    && s.warehouse == a.warehouse && s.location == None
    && (forall i :: Numbers(serials, a.number, i) ==>
          s.origin == serials[i].origin && s.createdAt == serials[i].createdAt && s.replacedBy == serials[i].replacedBy)
    && ((forall i :: !Numbers(serials, a.number, i)) ==>
          s.origin == InTransit && s.createdAt == now && s.replacedBy == None)
  }

  /** Numbers are not shared, and the next id is free. */
  ghost predicate WellNumbered(st: Stock) {
    Bounded(st.serials, st.nextId) && UniqueNumbers(st.serials)
  }

  /** One line: the row of its number is there afterwards, and every other row is as it was. */
  ghost predicate LineArrived(st: Stock, a: Arrival, now: int, after: Stock) {
    && after == st.(serials := after.serials, nextId := after.nextId)
    && (exists i :: Numbers(after.serials, a.number, i) && HasArrived(st.serials, a, now, after.serials[i]))
    && (forall i :: i in st.serials && st.serials[i].number != a.number ==>
          i in after.serials && after.serials[i] == st.serials[i])
    && (forall i :: i in after.serials && after.serials[i].number != a.number ==>
          i in st.serials && after.serials[i] == st.serials[i])
  }

  lemma NewLine(st: Stock, a: Arrival, now: int)
    requires WellNumbered(st) && Lookup(st.serials, a.number).None?
    ensures var r := ArriveOne(st, a, now);
            MayArrive(st.serials, a) && r.Some? && LineArrived(st, a, now, r.value) && WellNumbered(r.value)
  {
    assert forall i :: !Numbers(st.serials, a.number, i);
    var after := ArriveOne(st, a, now).value;
    assert Numbers(after.serials, a.number, st.nextId);
  }

  lemma ReturningLine(st: Stock, a: Arrival, now: int)
    requires WellNumbered(st) && Lookup(st.serials, a.number).Some?
    ensures var r := ArriveOne(st, a, now);
            (r.Some? <==> MayArrive(st.serials, a))
            && (r.Some? ==> LineArrived(st, a, now, r.value) && WellNumbered(r.value))
  {
    var i := Lookup(st.serials, a.number).value;
    assert Numbers(st.serials, a.number, i);
    assert forall j :: Numbers(st.serials, a.number, j) ==> j == i;
    if ArriveOne(st, a, now).Some? {
      assert Numbers(ArriveOne(st, a, now).value.serials, a.number, i);
    }
  }

  lemma LineInTerms(st: Stock, a: Arrival, now: int)
    requires WellNumbered(st)
    ensures var r := ArriveOne(st, a, now);
            (r.Some? <==> MayArrive(st.serials, a))
            && (r.Some? ==> LineArrived(st, a, now, r.value) && WellNumbered(r.value))
  {
    hide WellNumbered, MayArrive, LineArrived, ArriveOne;
    match Lookup(st.serials, a.number)
    case None => NewLine(st, a, now);
    case Some(i) => ReturningLine(st, a, now);
  }

  /** All lines have arrived, and rows that no line names are as they were. */
  ghost predicate AllArrived(st: Stock, manifest: seq<Arrival>, now: int, after: Stock) {
    && after == st.(serials := after.serials, nextId := after.nextId)
    && (forall k :: 0 <= k < |manifest| ==> LineThere(st, manifest[k], now, after))
    && (forall i <- st.serials :: !Named(manifest, st.serials[i].number) ==>
          i in after.serials && after.serials[i] == st.serials[i])
    && (forall i <- after.serials :: !Named(manifest, after.serials[i].number) ==>
          i in st.serials && after.serials[i] == st.serials[i])
  }

  ghost predicate LineThere(st: Stock, a: Arrival, now: int, after: Stock) {
    exists i :: Numbers(after.serials, a.number, i) && HasArrived(st.serials, a, now, after.serials[i])
  }

  ghost predicate Named(manifest: seq<Arrival>, number: string) {
    exists k :: 0 <= k < |manifest| && manifest[k].number == number
  }

  ghost predicate AllMayArrive(serials: Serials, manifest: seq<Arrival>) {
    forall k :: 0 <= k < |manifest| ==> MayArrive(serials, manifest[k])
  }

  /** A number that no line has named yet has the rows it had. */
  lemma SameRows(st: Stock, manifest: seq<Arrival>, now: int, before: Stock, a: Arrival)
    requires AllArrived(st, manifest, now, before) && !Named(manifest, a.number)
    ensures forall i :: Numbers(before.serials, a.number, i) <==> Numbers(st.serials, a.number, i)
    ensures forall i :: Numbers(st.serials, a.number, i) ==> before.serials[i] == st.serials[i]
  {
    hide Named, LineThere;
  }

  lemma LineAsAtFirst(st: Stock, manifest: seq<Arrival>, now: int, before: Stock, a: Arrival)
    requires AllArrived(st, manifest, now, before) && !Named(manifest, a.number)
    ensures MayArrive(before.serials, a) <==> MayArrive(st.serials, a)
    ensures forall s :: HasArrived(before.serials, a, now, s) ==> HasArrived(st.serials, a, now, s)
  {
    hide AllArrived, Numbers;
    SameRows(st, manifest, now, before, a);
    NumbersAreRows(st.serials, a.number);
    NumbersAreRows(before.serials, a.number);
  }

  lemma NumbersAreRows(serials: Serials, number: string)
    ensures forall i :: Numbers(serials, number, i) ==> i in serials
  {
  }

  /** One more line. */
  lemma OneMoreArrives(st: Stock, init: seq<Arrival>, a: Arrival, now: int, before: Stock, after: Stock)
    requires AllArrived(st, init, now, before) && !Named(init, a.number) && LineArrived(before, a, now, after)
    ensures AllArrived(st, init + [a], now, after)
  {
    hide HasArrived;
    var all := init + [a];
    NamedSnoc(init, a);
    LineAsAtFirst(st, init, now, before, a);
    forall k | 0 <= k < |all|
      ensures LineThere(st, all[k], now, after)
    {
      if k < |init| {
        assert LineThere(st, init[k], now, before) && init[k].number != a.number;
        var i :| Numbers(before.serials, init[k].number, i) && HasArrived(st.serials, init[k], now, before.serials[i]);
        assert Numbers(after.serials, init[k].number, i);
      }
    }
  }

  lemma NamedSnoc(init: seq<Arrival>, a: Arrival)
    ensures forall number :: Named(init + [a], number) <==> Named(init, number) || number == a.number
  {
    var all := init + [a];
    forall number
      ensures Named(all, number) <==> Named(init, number) || number == a.number
    {
      assert forall k :: 0 <= k < |init| ==> all[k] == init[k];
      assert all[|init|] == a;
    }
  }

  ghost predicate DifferentNumbers(manifest: seq<Arrival>) {
    forall j, k :: 0 <= j < k < |manifest| ==> manifest[j].number != manifest[k].number
  }

  /** The lines of a manifest arrive exactly if each of them may, read off the rows as they were before the first. */
  lemma {:induction false} LinesInTerms(st: Stock, manifest: seq<Arrival>, now: int)
    requires WellNumbered(st) && DifferentNumbers(manifest)
    ensures var r := ArriveAll(st, manifest, now);
            (r.Some? <==> AllMayArrive(st.serials, manifest))
            && (r.Some? ==> AllArrived(st, manifest, now, r.value) && WellNumbered(r.value))
    decreases |manifest|
  {
    hide WellNumbered, ArriveOne, LineArrived, AllArrived, MayArrive;
    if manifest == [] {
      NothingArrived(st, now);
    } else {
      var n := |manifest| - 1;
      var init, a := manifest[..n], manifest[n];
      assert manifest == init + [a];
      LinesInTerms(st, init, now);
      if ArriveAll(st, init, now).Some? {
        var before := ArriveAll(st, init, now).value;
        assert !Named(init, a.number);
        LineAsAtFirst(st, init, now, before, a);
        LineInTerms(before, a, now);
        if ArriveOne(before, a, now).Some? {
          OneMoreArrives(st, init, a, now, before, ArriveOne(before, a, now).value);
        }
      }
    }
  }

  lemma NothingArrived(st: Stock, now: int)
    ensures AllArrived(st, [], now, st)
  {
  }

  /**
   A manifest is accepted exactly if it has lines, under different numbers, that may all arrive; then each of its units
   is there, on its way, under its number, and no other row has changed.
   */
  lemma ManifestInTerms(st: Stock, manifest: seq<Arrival>, now: int)
    requires WellNumbered(st)
    ensures var r := Arrive(st, manifest, now);
            (r.Some? <==> manifest != [] && DifferentNumbers(manifest) && AllMayArrive(st.serials, manifest))
            && (r.Some? ==> AllArrived(st, manifest, now, r.value) && WellNumbered(r.value))
  {
    hide WellNumbered, ArriveAll, AllArrived, AllMayArrive;
    if DifferentNumbers(manifest) {
      LinesInTerms(st, manifest, now);
    }
  }
}
