/**
 First expiry, first out, in terms of the dates themselves: which units a pick leaves behind, and
 which scans the check lets through (app/services/expiry.py:277-355).
 */
module FefoDates {
  import opened Options
  import opened StockTypes
  import opened Fefo
  import opened DraftBatches

  /** A unit with the first date need not make way for one with the second; a unit without a date comes last. */
  predicate NotLater(a: Option<int>, b: Option<int>) {
    b.Some? ==> a.Some? && a.value <= b.value
  }

  /** The unit can be taken for a sale, an issue or a purchase return: in stock, and in no open batch. */
  ghost predicate OnOffer(st: Stock, kind: BatchType, product: nat, i: nat) {
    i in st.serials && st.serials[i].active && st.serials[i].product == product
    && (st.serials[i].status == InStock || (st.serials[i].status == Returned && kind != Issue))
    && forall c :: IsOpen(st, c) ==> i !in st.batches[c].items
  }

  ghost function Offer(st: Stock, kind: BatchType, product: nat): (ids: set<nat>)
    ensures ids <= st.serials.Keys
  {
    set i | i in st.serials && OnOffer(st, kind, product, i)
  }

  lemma OfferIsAvailable(st: Stock, kind: BatchType, product: nat)
    requires IsFefoType(kind)
    ensures Available(st, product, FefoStatuses(kind)) == Offer(st, kind, product)
  {
    forall i | i in st.serials
      ensures i in Drafted(st.batches) <==> !forall c :: IsOpen(st, c) ==> i !in st.batches[c].items
    {
      if i in Drafted(st.batches) {
        var c :| c in st.batches && st.batches[c].draft && i in st.batches[c].items;
        assert IsOpen(st, c);
      }
    }
    assert forall i :: i in Available(st, product, FefoStatuses(kind)) <==> i in Offer(st, kind, product);
  }

  lemma EarlierByDate(serials: Serials, i: nat, j: nat)
    requires i in serials && j in serials && Earlier(serials, i, j)
    ensures NotLater(serials[i].expiry, serials[j].expiry)
    ensures serials[i].expiry == serials[j].expiry ==> serials[i].createdAt <= serials[j].createdAt
    ensures serials[i].expiry == serials[j].expiry && serials[i].createdAt == serials[j].createdAt ==> i < j
  {
  }

  /**
   The query lists earlier dates first and units without a date last; equal dates go by time of creation,
   and equal times by id.
   */
  lemma OrderedByDate(serials: Serials, ids: set<nat>, j: nat, k: nat)
    requires ids <= serials.Keys && j < k < |Ordered(serials, ids)|
    ensures var r := Ordered(serials, ids);
            r[j] in serials && r[k] in serials
            && (var s, t := serials[r[j]], serials[r[k]];
                NotLater(s.expiry, t.expiry)
                && (s.expiry == t.expiry ==> s.createdAt <= t.createdAt)
                && (s.expiry == t.expiry && s.createdAt == t.createdAt ==> r[j] < r[k]))
  {
    hide Ordered, Earlier, NotLater, Elements;
    OrderedIsSorted(serials, ids);
    var r := Ordered(serials, ids);
    EarlierByDate(serials, r[j], r[k]);
  }

  /** These units are on offer, each once, and none on offer but left behind has an earlier date. */
  ghost predicate PickedByDate(st: Stock, kind: BatchType, product: nat, picked: seq<nat>) {
    Distinct(picked)
    && (forall x :: x in picked ==> x in Offer(st, kind, product))
    && forall x, y :: x in picked && y in Offer(st, kind, product) && y !in picked ==>
         NotLater(st.serials[x].expiry, st.serials[y].expiry)
         && (st.serials[x].expiry == st.serials[y].expiry ==> st.serials[x].createdAt <= st.serials[y].createdAt)
  }

  /** A bulk pick succeeds exactly when enough units are on offer, and then adds as many, by date. */
  lemma PickByDates(st: Stock, b: nat, product: nat, quantity: int)
    requires IsOpen(st, b) && IsFefoType(st.batches[b].kind)
    ensures FefoPick(st, b, product, quantity).Some? <==> quantity <= |Offer(st, st.batches[b].kind, product)|
    ensures FefoPick(st, b, product, quantity).Some? ==>
              exists picked ::
                FefoPick(st, b, product, quantity).value
                == WithBatch(st, b, st.batches[b].(items := st.batches[b].items + picked))
                && |picked| == (if quantity < 0 then 0 else quantity)
                && PickedByDate(st, st.batches[b].kind, product, picked)
  {
    hide Available, FefoStatuses, Ordered, Earlier, OnOffer, PickedByDate, FefoPick;
    var kind := st.batches[b].kind;
    OfferIsAvailable(st, kind, product);
    PickTakesExactly(st, b, product, quantity);
    if FefoPick(st, b, product, quantity).Some? {
      var picked := Candidates(st, product, quantity, FefoStatuses(kind));
      CandidatesByDate(st, kind, product, quantity);
      assert PickedByDate(st, kind, product, picked);
    }
  }

  lemma CandidatesByDate(st: Stock, kind: BatchType, product: nat, quantity: int)
    requires IsFefoType(kind) && quantity <= |Offer(st, kind, product)|
    ensures PickedByDate(st, kind, product, Candidates(st, product, quantity, FefoStatuses(kind)))
  {
    hide Available, FefoStatuses, Ordered, Earlier, OnOffer, NotLater, Elements;
    OfferIsAvailable(st, kind, product);
    var offered := Offer(st, kind, product);
    var r := Ordered(st.serials, offered);
    var picked := Candidates(st, product, quantity, FefoStatuses(kind));
    if quantity >= 1 {
      assert picked == r[..quantity];
      assert forall k :: 0 <= k < quantity ==> picked[k] == r[k];
      OrderedIsDistinct(st.serials, offered);
      assert forall x :: x in picked ==> x in r;
      forall x, y | x in picked && y in offered && y !in picked
        ensures NotLater(st.serials[x].expiry, st.serials[y].expiry)
        ensures st.serials[x].expiry == st.serials[y].expiry ==> st.serials[x].createdAt <= st.serials[y].createdAt
      {
        TakenBefore(st.serials, offered, quantity, x, y);
      }
    }
  }

  lemma TakenBefore(serials: Serials, ids: set<nat>, n: nat, x: nat, y: nat)
    requires ids <= serials.Keys && n <= |Ordered(serials, ids)|
    requires x in Ordered(serials, ids)[..n] && y in ids && y !in Ordered(serials, ids)[..n]
    ensures x in serials && NotLater(serials[x].expiry, serials[y].expiry)
    ensures serials[x].expiry == serials[y].expiry ==> serials[x].createdAt <= serials[y].createdAt
  {
    hide Ordered, NotLater;
    var r := Ordered(serials, ids);
    var j :| 0 <= j < n && r[..n][j] == x;
    assert y in r;
    var k :| 0 <= k < |r| && r[k] == y;
    OrderedByDate(serials, ids, j, k);
  }

  /** A scan for a sale, an issue or a purchase return is accepted exactly by offer and date. */
  lemma ScanByDates(st: Stock, b: nat, i: nat)
    requires IsOpen(st, b) && IsFefoType(st.batches[b].kind) && i in st.serials
    ensures var kind, product := st.batches[b].kind, st.serials[i].product;
            AddSerial(st, b, i).Some? <==>
            i in Offer(st, kind, product)
            && forall j :: j in Offer(st, kind, product) ==> NotLater(st.serials[i].expiry, st.serials[j].expiry)
  {
    hide FefoAllows, NotLater;
    var kind, product := st.batches[b].kind, st.serials[i].product;
    if OnOffer(st, kind, product, i) {
      CheckByDates(st, kind, i);
      assert i !in st.batches[b].items;
    }
    if AddSerial(st, b, i).Some? {
      forall c | IsOpen(st, c)
        ensures i !in st.batches[c].items
      {
        if c != b {
          assert !InOtherDraft(st, b, i);
        }
      }
    }
  }

  /** The check on a unit on offer passes exactly when no unit on offer has an earlier date. */
  lemma CheckByDates(st: Stock, kind: BatchType, i: nat)
    requires IsFefoType(kind) && i in st.serials && i in Offer(st, kind, st.serials[i].product)
    ensures FefoAllows(st, kind, i) <==>
            forall j :: j in Offer(st, kind, st.serials[i].product) ==>
              NotLater(st.serials[i].expiry, st.serials[j].expiry)
  {
    hide FefoAllows, Ordered, FefoStatuses, NotLater, Available, OnOffer;
    var product := st.serials[i].product;
    var offered := Offer(st, kind, product);
    OfferIsAvailable(st, kind, product);
    AllowedIsEarliest(st, kind, i);
    var r := Ordered(st.serials, offered);
    assert i in r;
    assert r[0] in r;
    if KeyOf(st.serials, i) == KeyOf(st.serials, r[0]) {
      forall j | j in offered
        ensures NotLater(st.serials[i].expiry, st.serials[j].expiry)
      {
        FirstByDate(st.serials, offered, j);
      }
    } else if NotLater(st.serials[i].expiry, st.serials[r[0]].expiry) {
      FirstByDate(st.serials, offered, i);
      SameDate(st.serials[i].expiry, st.serials[r[0]].expiry);
    }
  }

  lemma FirstByDate(serials: Serials, ids: set<nat>, j: nat)
    requires ids <= serials.Keys && j in ids
    ensures Ordered(serials, ids)[0] in serials
    ensures NotLater(serials[Ordered(serials, ids)[0]].expiry, serials[j].expiry)
  {
    hide Ordered;
    var r := Ordered(serials, ids);
    assert j in r;
    var k :| 0 <= k < |r| && r[k] == j;
    assert r[0] in r;
    if k > 0 {
      OrderedByDate(serials, ids, 0, k);
    }
  }

  lemma SameDate(a: Option<int>, b: Option<int>)
    requires NotLater(a, b) && NotLater(b, a)
    ensures a == b
  {
  }
}
