/**
 What each call on a draft batch does, in terms of its lists and of the rows (app/services/inventory.py:279-367,
 app/services/sale_returns.py:84-165, app/services/shelf_verification.py:75-122).
 */
module DraftTerms {
  import opened Options
  import opened StockTypes
  import opened Fefo
  import opened DraftBatches
  import opened FefoDates
  import opened SubmissionTable

  /** Only this batch changes, and it keeps its kind and reason and stays a draft. */
  ghost predicate OnlyBatch(st: Stock, after: Stock, b: nat, items: seq<nat>, pending: seq<nat>, verified: set<nat>)
    requires b in st.batches
  {
    after == st.(serials := after.serials, batches := after.batches)
    && after.batches == st.batches[b := Batch(st.batches[b].kind, true, st.batches[b].reason, items, pending, verified)]
  }

  /** Exactly the rows of these units are on this shelf now; nothing else about any row has changed. */
  ghost predicate OnShelf(serials: Serials, after: Serials, ids: set<nat>, location: nat, warehouse: string) {
    after.Keys == serials.Keys
    && forall i <- serials ::
         after[i] ==
         if i in ids then serials[i].(location := Some(location), warehouse := Some(warehouse)) else serials[i]
  }

  ghost predicate InNoOpenBatch(st: Stock, i: nat) {
    forall c <- st.batches :: st.batches[c].draft ==> i !in st.batches[c].items
  }

  /** The unit may be scanned: for a sale, an issue or a purchase return, by offer and date; otherwise by the table. */
  ghost predicate MayScan(st: Stock, batch: Batch, i: nat)
    requires i in st.serials
  {
    var s := st.serials[i];
    if batch.kind in {Sale, Issue, PurchaseReturn} then
      OnOffer(st, batch.kind, s.product, i)
      && forall j :: j in Offer(st, batch.kind, s.product) ==> NotLater(s.expiry, st.serials[j].expiry)
    else s.active && MoveOf(batch.kind, batch.reason, s.status).Some? && InNoOpenBatch(st, i)
  }

  lemma ScannedInTerms(st: Stock, b: nat, i: nat)
    requires IsOpen(st, b) && i in st.serials
    ensures AddSerial(st, b, i).Some? <==> MayScan(st, st.batches[b], i)
  {
    hide OnOffer, NotLater, Offer, MoveOf;
    var batch := st.batches[b];
    if IsFefoType(batch.kind) {
      ScanByDates(st, b, i);
      InOffer(st, batch.kind, st.serials[i].product, i);
    } else {
      AdmissibleByTable(st.serials[i], batch);
      NoFefoCheck(st, batch.kind, i);
    }
  }

  lemma InOffer(st: Stock, kind: BatchType, product: nat, i: nat)
    ensures i in Offer(st, kind, product) <==> OnOffer(st, kind, product, i)
  {
  }

  lemma NoFefoCheck(st: Stock, kind: BatchType, i: nat)
    requires !IsFefoType(kind) && i in st.serials
    ensures FefoAllows(st, kind, i)
  {
  }

  /** A scan is accepted exactly so, and appends the unit that has the scanned number. */
  lemma ScanInTerms(st: Stock, b: nat, text: string, allowed: bool)
    requires IsOpen(st, b)
    ensures var batch, i, r := st.batches[b], Lookup(st.serials, Normalize(text)), Scan(st, b, text, allowed);
            (r.Some? <==>
              allowed && i.Some? && (batch.kind == Sale ==> batch.pending == []) && MayScan(st, batch, i.value))
            && (r.Some? ==>
                  r.value.serials == st.serials
                  && OnlyBatch(st, r.value, b, batch.items + [i.value], batch.pending, batch.verified))
  {
    hide MayScan, Admissible, FefoAllows;
    var i := Lookup(st.serials, Normalize(text));
    if i.Some? {
      ScannedInTerms(st, b, i.value);
    }
  }

  lemma {:induction false} WithoutNone(s: seq<nat>, i: nat)
    requires i !in s
    ensures Without(s, i) == s
  {
    if s != [] {
      WithoutNone(s[1..], i);
      assert s == [s[0]] + s[1..];
    }
  }

  lemma {:induction false} WithoutOne(s: seq<nat>, i: nat) returns (k: nat)
    requires Distinct(s) && i in s
    ensures k < |s| && s[k] == i && Without(s, i) == s[..k] + s[k + 1..]
  {
    if s[0] == i {
      k := 0;
      WithoutNone(s[1..], i);
    } else {
      k := WithoutOne(s[1..], i);
      k := k + 1;
      assert s[..k] == [s[0]] + s[1..][..k - 1] && s[k + 1..] == s[1..][k..];
    }
  }

  /** An item is removed exactly if it is there, and the others keep their order. */
  lemma RemoveInTerms(st: Stock, b: nat, i: nat) returns (k: nat)
    requires IsOpen(st, b) && Distinct(st.batches[b].items)
    ensures var batch, r := st.batches[b], RemoveItem(st, b, i);
            (r.Some? <==> i in batch.items)
            && (r.Some? ==>
                  k < |batch.items| && batch.items[k] == i && r.value.serials == st.serials
                  && OnlyBatch(st, r.value, b, batch.items[..k] + batch.items[k + 1..], batch.pending,
                       batch.verified - {i}))
  {
    hide Without;
    k := 0;
    if i in st.batches[b].items {
      k := WithoutOne(st.batches[b].items, i);
    }
  }

  /** A return is accepted exactly for a unit in use of an open sale that has no return waiting, which then waits. */
  lemma ReturnInTerms(st: Stock, b: nat, text: string) returns (k: nat)
    requires IsOpen(st, b) && Distinct(st.batches[b].items)
    ensures var batch, i, r := st.batches[b], Lookup(st.serials, Normalize(text)), SaleReturnScan(st, b, text);
            (r.Some? <==>
              batch.kind == Sale && batch.pending == [] && i.Some? && i.value in batch.items
              && st.serials[i.value].active && st.serials[i.value].status !in {Invalid, Replaced})
            && (r.Some? ==>
                  k < |batch.items| && batch.items[k] == i.value && r.value.serials == st.serials
                  && OnlyBatch(st, r.value, b, batch.items[..k] + batch.items[k + 1..], [i.value],
                       batch.verified - {i.value}))
  {
    hide Without;
    k := 0;
    var i := Lookup(st.serials, Normalize(text));
    if i.Some? && i.value in st.batches[b].items {
      k := WithoutOne(st.batches[b].items, i.value);
      assert [] + [i.value] == [i.value];
    }
  }

  ghost function Ids(s: seq<nat>): (r: set<nat>)
    ensures forall i :: i in r <==> i in s
  {
    set i | i in s
  }

  /** The shelf scan of a return is accepted exactly if one waits; it puts what waits on that shelf. */
  lemma ReturnShelfInTerms(st: Stock, b: nat, location: nat, warehouse: string)
    requires IsOpen(st, b)
    ensures var batch, r := st.batches[b], SaleReturnShelf(st, b, location, warehouse);
            (r.Some? <==> batch.kind == Sale && batch.pending != [])
            && (r.Some? ==>
                  OnlyBatch(st, r.value, b, batch.items, [], batch.verified)
                  && OnShelf(st.serials, r.value.serials, Ids(batch.pending), location, warehouse))
  {
  }

  /**
   The shelf scan of other batches is accepted exactly if their shelves must be scanned and some item's has not been;
   it puts those items on that shelf, and leaves none unverified.
   */
  lemma ShelfInTerms(st: Stock, b: nat, location: nat, warehouse: string)
    requires IsOpen(st, b)
    ensures var batch, r := st.batches[b], ShelfVerify(st, b, location, warehouse);
            (r.Some? <==> batch.kind in {Purchase, Receive, Audit} && exists i <- batch.items :: i !in batch.verified)
            && (r.Some? ==>
                  OnlyBatch(st, r.value, b, batch.items, batch.pending, batch.verified + Ids(batch.items))
                  && OnShelf(st.serials, r.value.serials, Ids(batch.items) - batch.verified, location, warehouse))
  {
    var batch := st.batches[b];
    var left := Unverified(batch);
    if ShelfControlled(batch.kind) {
      assert left != [] ==> left[0] in left;
      assert forall i <- batch.items :: i !in batch.verified ==> i in left;
      assert batch.verified + Elements(left) == batch.verified + Ids(batch.items);
    }
  }
}
