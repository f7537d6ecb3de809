/**
 QR labels (app/services/master_qr.py, app/services/replacement.py): allocating new ones, and
 replacing the label of a unit. A replaced label points at its successor; the chains of those
 links are what identify a physical unit over time.
 */
module Replacement {
  import opened Options
  import opened StockTypes

  const MAX_QRS_PER_COMMAND := 500

  predicate IsHex(c: char) {
    '0' <= c <= '9' || 'A' <= c <= 'F'
  }

  /** `_MASTER_SERIAL_PATTERN`. */
  predicate IsMasterSerial(number: string) {
    |number| == 36 && number[..4] == "SQR-" && forall c <- number[4..] :: IsHex(c)
  }

  /** One serial of an allocation. */
  datatype Label = Label(
    number: string,
    lot: Option<string>,
    mfgDate: Option<int>,
    expiry: Option<int>,
    warehouse: Option<string>)

  predicate LabelOk(l: Label) {
    IsMasterSerial(l.number)
    && (l.mfgDate.Some? && l.expiry.Some? ==> l.mfgDate.value < l.expiry.value)
  }

  predicate Repeats(labels: seq<Label>) {
    exists j, k :: 0 <= j < k < |labels| && labels[j].number == labels[k].number
  }

  function NewSerial(l: Label, product: nat, now: int): Serial {
    Serial(l.number, product, Generated, Generated, true, l.lot, l.mfgDate, l.expiry, now, None, l.warehouse, None)
  }

  /** The rows of `labels`, added under the next free ids. */
  function Allocated(serials: Serials, nextId: nat, product: nat, labels: seq<Label>, now: int): (r: Serials)
    ensures forall i :: i in r <==> i in serials || nextId <= i < nextId + |labels|
  {
    if labels == [] then serials
    else
      var n := |labels| - 1;
      Allocated(serials, nextId, product, labels[..n], now)[nextId + n := NewSerial(labels[n], product, now)]
  }

  /** `apply_qr_allocated_command`, once its product is found or created. */
  function Allocate(st: Stock, product: nat, labels: seq<Label>, now: int): Option<Stock> {
    if !(1 <= |labels| <= MAX_QRS_PER_COMMAND) || Repeats(labels) then None
    else if exists l <- labels :: !LabelOk(l) || NumberTaken(st.serials, l.number) then None
    else Some(st.(serials := Allocated(st.serials, st.nextId, product, labels, now), nextId := st.nextId + |labels|))
  }

  predicate Replaceable(status: SerialStatus) {
    status == Generated || status == InStock || status == Returned || status == Damaged
  }

  /** `replacement_status_for`: a new label restarts as unassigned or as normal stock. */
  function ReplacementStatus(status: SerialStatus): SerialStatus {
    if status == Generated then Generated else InStock
  }

  /** The successor's row: the same unit under a new number. */
  function Successor(unit: Serial, number: string, now: int): Serial {
    var status := ReplacementStatus(unit.status);
    Serial(number, unit.product, status, status, true, unit.lot, unit.mfgDate, unit.expiry, now, unit.location,
           unit.warehouse, None)
  }

  function Retire(unit: Serial, successor: nat): Serial {
    unit.(status := Invalid, active := false, replacedBy := Some(successor))
  }

  /** `apply_qr_replace_command` on the stock tables. */
  function Replace(st: Stock, oldNumber: string, newNumber: string, expected: SerialStatus, now: int): Option<Stock> {
    if !IsMasterSerial(newNumber) || newNumber == oldNumber || !Replaceable(expected) then None
    else
      var i :- Lookup(st.serials, oldNumber);
      var unit := st.serials[i];
      if !unit.active || unit.status != expected || NumberTaken(st.serials, newNumber) then None
      else
        Some(st.(serials := st.serials[i := Retire(unit, st.nextId)][st.nextId := Successor(unit, newNumber, now)],
                 nextId := st.nextId + 1))
  }

  // ----- The invariant -----

  predicate SameLot(a: Serial, b: Serial) {
    a.lot == b.lot && a.mfgDate == b.mfgDate && a.expiry == b.expiry
  }

  ghost predicate Bounded(serials: Serials, nextId: nat) {
    forall i :: i in serials ==> i < nextId
  }

  ghost predicate UniqueNumbers(serials: Serials) {
    forall i, j :: i in serials && j in serials && serials[i].number == serials[j].number ==> i == j
  }

  /** A link leads to a later row of the same unit, from a label that is out of use. */
  ghost predicate LinkOk(serials: Serials, i: nat)
    requires i in serials
  {
    var s := serials[i];
    s.replacedBy.Some? ==>
      i < s.replacedBy.value && s.replacedBy.value in serials && s.product == serials[s.replacedBy.value].product
      && !s.active && s.status == Invalid
  }

  ghost predicate Linked(serials: Serials) {
    forall i :: i in serials ==> LinkOk(serials, i)
  }

  ghost predicate OneToOne(serials: Serials) {
    forall i, j :: (i in serials && j in serials && serials[i].replacedBy.Some?
                    && serials[i].replacedBy == serials[j].replacedBy) ==> i == j
  }

  /** A label without a successor is in use, unless its unit is away or it was out of use from the start. */
  ghost predicate EndsInUse(serials: Serials, retired: set<nat>) {
    forall i :: i in serials && serials[i].replacedBy.None? && !serials[i].active ==>
        i in retired || serials[i].status == InTransit
  }

  ghost predicate Labelled(st: Stock, retired: set<nat>) {
    Bounded(st.serials, st.nextId) && UniqueNumbers(st.serials) && Linked(st.serials) && OneToOne(st.serials)
    && EndsInUse(st.serials, retired)
  }

  /** A new row under a free id and number. */
  lemma AddKeepsLabels(st: Stock, retired: set<nat>, s: Serial)
    requires Labelled(st, retired) && !NumberTaken(st.serials, s.number) && s.active && s.replacedBy.None?
    ensures Labelled(st.(serials := st.serials[st.nextId := s], nextId := st.nextId + 1), retired)
  {
    var r := st.serials[st.nextId := s];
    assert forall k :: k in st.serials ==> r[k] == st.serials[k];
    forall i | i in r
      ensures LinkOk(r, i)
    {
      if i in st.serials {
        assert LinkOk(st.serials, i);
      }
    }
  }

  /** A label in use retires in favour of the newest row, which nothing else points at. */
  lemma RetireKeepsLabels(st: Stock, retired: set<nat>, i: nat, j: nat)
    requires Labelled(st, retired) && i in st.serials && j in st.serials && i < j
    requires st.serials[i].active && st.serials[j].active && IsRoot(st.serials, j)
    requires st.serials[i].product == st.serials[j].product
    ensures Labelled(st.(serials := st.serials[i := Retire(st.serials[i], j)]), retired)
  {
    var r := st.serials[i := Retire(st.serials[i], j)];
    assert forall k :: k in st.serials && k != i ==> r[k] == st.serials[k];
    assert LinkOk(st.serials, i);
    forall k | k in r
      ensures LinkOk(r, k)
    {
      assert LinkOk(st.serials, k);
    }
  }

  lemma {:induction false} AllocatedNumbers(serials: Serials, nextId: nat, product: nat, labels: seq<Label>,
      now: int, number: string)
    requires NumberTaken(Allocated(serials, nextId, product, labels, now), number)
    ensures NumberTaken(serials, number) || exists k :: 0 <= k < |labels| && labels[k].number == number
    decreases |labels|
  {
    if labels != [] {
      var n := |labels| - 1;
      if labels[n].number != number {
        var r := Allocated(serials, nextId, product, labels, now);
        var i :| i in r && r[i].number == number;
        assert Allocated(serials, nextId, product, labels[..n], now)[i].number == number;
        AllocatedNumbers(serials, nextId, product, labels[..n], now, number);
      }
    }
  }

  lemma {:induction false} AllocateAllKeepsLabels(st: Stock, retired: set<nat>, product: nat, labels: seq<Label>,
      now: int)
    requires Labelled(st, retired) && !Repeats(labels)
    requires forall l <- labels :: !NumberTaken(st.serials, l.number)
    ensures Labelled(st.(serials := Allocated(st.serials, st.nextId, product, labels, now),
                             nextId := st.nextId + |labels|), retired)
    decreases |labels|
  {
    hide Labelled, NumberTaken, Repeats, NewSerial;
    if labels == [] {
      assert st.(serials := Allocated(st.serials, st.nextId, product, labels, now), nextId := st.nextId + |labels|)
        == st;
    } else {
      var n := |labels| - 1;
      var init := labels[..n];
      RepeatsInit(labels);
      AllocateAllKeepsLabels(st, retired, product, init, now);
      LastNumberFree(st.serials, st.nextId, product, labels, now);
      var before := st.(serials := Allocated(st.serials, st.nextId, product, init, now), nextId := st.nextId + n);
      NewSerialFresh(labels[n], product, now);
      AddKeepsLabels(before, retired, NewSerial(labels[n], product, now));
    }
  }

  lemma NewSerialFresh(l: Label, product: nat, now: int)
    ensures var s := NewSerial(l, product, now); s.number == l.number && s.active && s.replacedBy.None?
  {
  }

  lemma RepeatsInit(labels: seq<Label>)
    requires labels != [] && !Repeats(labels)
    ensures !Repeats(labels[..|labels| - 1])
  {
    var init := labels[..|labels| - 1];
    assert forall j, k :: 0 <= j < k < |init| ==>
        init[j].number == labels[j].number && init[k].number == labels[k].number;
  }

  lemma LastNumberFree(serials: Serials, nextId: nat, product: nat, labels: seq<Label>, now: int)
    requires labels != [] && !Repeats(labels) && !NumberTaken(serials, labels[|labels| - 1].number)
    ensures !NumberTaken(Allocated(serials, nextId, product, labels[..|labels| - 1], now), labels[|labels| - 1].number)
  {
    var init, number := labels[..|labels| - 1], labels[|labels| - 1].number;
    if NumberTaken(Allocated(serials, nextId, product, init, now), number) {
      AllocatedNumbers(serials, nextId, product, init, now, number);
    }
  }

  lemma AllocateKeepsLabels(st: Stock, retired: set<nat>, product: nat, labels: seq<Label>, now: int)
    requires Labelled(st, retired) && Allocate(st, product, labels, now).Some?
    ensures Labelled(Allocate(st, product, labels, now).value, retired)
  {
    hide Labelled, LabelOk;
    AllocateAllKeepsLabels(st, retired, product, labels, now);
  }

  lemma ReplaceKeepsLabels(st: Stock, retired: set<nat>, oldNumber: string, newNumber: string,
      expected: SerialStatus, now: int)
    requires Labelled(st, retired) && Replace(st, oldNumber, newNumber, expected, now).Some?
    ensures Labelled(Replace(st, oldNumber, newNumber, expected, now).value, retired)
  {
    hide IsMasterSerial, NumberTaken, Replaceable;
    var i := Lookup(st.serials, oldNumber).value;
    assert i < st.nextId && st.serials[i].active && !NumberTaken(st.serials, newNumber);
    SwapKeepsLabels(st, retired, i, newNumber, now);
  }

  lemma SwapKeepsLabels(st: Stock, retired: set<nat>, i: nat, newNumber: string, now: int)
    requires Labelled(st, retired) && i in st.serials && st.serials[i].active && !NumberTaken(st.serials, newNumber)
    ensures var j := st.nextId;
            Labelled(st.(serials := st.serials[i := Retire(st.serials[i], j)]
                                              [j := Successor(st.serials[i], newNumber, now)],
                         nextId := j + 1), retired)
  {
    hide NumberTaken, ReplacementStatus, Labelled, Retire, IsRoot;
    var unit, j := st.serials[i], st.nextId;
    assert Bounded(st.serials, j) && Linked(st.serials) by { LabelledParts(st, retired); }
    var s := Successor(unit, newNumber, now);
    NewestIsRoot(st, s);
    AddKeepsLabels(st, retired, s);
    var added := st.(serials := st.serials[j := s], nextId := j + 1);
    RetireKeepsLabels(added, retired, i, j);
    assert st.serials[i := Retire(unit, j)][j := s] == added.serials[i := Retire(unit, j)];
  }

  lemma LabelledParts(st: Stock, retired: set<nat>)
    requires Labelled(st, retired)
    ensures Bounded(st.serials, st.nextId) && UniqueNumbers(st.serials) && Linked(st.serials) && OneToOne(st.serials)
    ensures EndsInUse(st.serials, retired)
  {
  }

  lemma NewestIsRoot(st: Stock, s: Serial)
    requires Bounded(st.serials, st.nextId) && Linked(st.serials) && s.replacedBy.None?
    ensures IsRoot(st.serials[st.nextId := s], st.nextId)
  {
    forall k | k in st.serials
      ensures st.serials[k].replacedBy != Some(st.nextId)
    {
      assert LinkOk(st.serials, k);
    }
  }

  // ----- Chains -----

  /** The label now on the unit that once carried label `i`. */
  ghost function End(st: Stock, i: nat): (e: nat)
    requires Bounded(st.serials, st.nextId) && Linked(st.serials) && i in st.serials
    ensures e in st.serials && st.serials[e].replacedBy.None? && i <= e
    ensures st.serials[i].product == st.serials[e].product
    decreases st.nextId - i
  {
    assert LinkOk(st.serials, i);
    if st.serials[i].replacedBy.None? then i else End(st, st.serials[i].replacedBy.value)
  }

  /** `n` links lead from `i` to `j`. */
  ghost predicate Reaches(serials: Serials, i: nat, j: nat, n: nat)
    decreases n
  {
    i in serials
    && if n == 0 then i == j
       else serials[i].replacedBy.Some? && Reaches(serials, serials[i].replacedBy.value, j, n - 1)
  }

  /** No chain of links comes back to a label it has left. */
  lemma {:induction false} ChainsAreAcyclic(serials: Serials, i: nat, j: nat, n: nat)
    requires Linked(serials) && Reaches(serials, i, j, n)
    ensures i + n <= j
    decreases n
  {
    if n > 0 {
      assert LinkOk(serials, i);
      ChainsAreAcyclic(serials, serials[i].replacedBy.value, j, n - 1);
    }
  }

  /** A label that replaced no other. */
  ghost predicate IsRoot(serials: Serials, j: nat) {
    j in serials && forall i :: i in serials ==> serials[i].replacedBy != Some(j)
  }

  /**
   Each chain ends in one label, which is in use unless its unit is away or it never was, carries the
   same product, and is the only label of its chain in use.
   */
  lemma {:induction false} ChainEndsInUse(st: Stock, retired: set<nat>, i: nat)
    requires Labelled(st, retired) && i in st.serials
    ensures var e := End(st, i);
            (st.serials[e].active || e in retired || st.serials[e].status == InTransit)
            && st.serials[i].product == st.serials[e].product
    ensures forall k, n :: Reaches(st.serials, i, k, n) && k in st.serials && st.serials[k].active ==> k == End(st, i)
    decreases st.nextId - i
  {
    forall k, n | Reaches(st.serials, i, k, n) && k in st.serials && st.serials[k].active
      ensures k == End(st, i)
    {
      OnlyEndInUse(st, i, k, n);
    }
  }

  lemma {:induction false} OnlyEndInUse(st: Stock, i: nat, k: nat, n: nat)
    requires Bounded(st.serials, st.nextId) && Linked(st.serials) && i in st.serials
    requires Reaches(st.serials, i, k, n) && k in st.serials && st.serials[k].active
    ensures k == End(st, i)
    decreases n
  {
    assert LinkOk(st.serials, i);
    if n > 0 {
      OnlyEndInUse(st, st.serials[i].replacedBy.value, k, n - 1);
    }
  }

  /** Different units never share a label: chains with different starts have different ends. */
  lemma {:induction false} ChainsNeverMeet(st: Stock, i: nat, j: nat)
    requires Bounded(st.serials, st.nextId) && Linked(st.serials) && OneToOne(st.serials)
    requires IsRoot(st.serials, i) && IsRoot(st.serials, j) && End(st, i) == End(st, j)
    ensures i == j
  {
    var m := EndReached(st, i);
    var n := EndReached(st, j);
    if m <= n {
      SameDistance(st, i, j, End(st, i), m, n);
    } else {
      SameDistance(st, j, i, End(st, i), n, m);
    }
  }

  lemma {:induction false} EndReached(st: Stock, i: nat) returns (n: nat)
    requires Bounded(st.serials, st.nextId) && Linked(st.serials) && i in st.serials
    ensures Reaches(st.serials, i, End(st, i), n)
    decreases st.nextId - i
  {
    assert LinkOk(st.serials, i);
    if st.serials[i].replacedBy.None? {
      n := 0;
    } else {
      var m := EndReached(st, st.serials[i].replacedBy.value);
      n := m + 1;
    }
  }

  /** The label `n` links after `i`. */
  lemma {:induction false} ReachesLast(serials: Serials, i: nat, e: nat, n: nat) returns (p: nat)
    requires Reaches(serials, i, e, n) && n > 0
    ensures Reaches(serials, i, p, n - 1) && p in serials && serials[p].replacedBy == Some(e)
    decreases n
  {
    if n == 1 {
      p := i;
    } else {
      p := ReachesLast(serials, serials[i].replacedBy.value, e, n - 1);
    }
  }

  /** Walking back from a common label along one-to-one links, the shorter chain starts on the longer one. */
  lemma {:induction false} SameDistance(st: Stock, i: nat, j: nat, e: nat, m: nat, n: nat)
    requires OneToOne(st.serials) && IsRoot(st.serials, i) && IsRoot(st.serials, j)
    requires m <= n && Reaches(st.serials, i, e, m) && Reaches(st.serials, j, e, n)
    ensures i == j
    decreases m
  {
    if m == 0 {
      if n > 0 {
        var p := ReachesLast(st.serials, j, e, n);
        assert false;
      }
    } else {
      var p := ReachesLast(st.serials, i, e, m);
      var q := ReachesLast(st.serials, j, e, n);
      SameDistance(st, i, j, p, m - 1, n - 1);
    }
  }

  // ----- Lots and dates along a chain -----

  /** Each label agrees with its successor on lot and dates. */
  ghost predicate LotsAgree(serials: Serials) {
    forall i :: i in serials && serials[i].replacedBy.Some? && serials[i].replacedBy.value in serials ==>
      SameLot(serials[i], serials[serials[i].replacedBy.value])
  }

  lemma {:induction false} LotsAlongChain(st: Stock, i: nat)
    requires Bounded(st.serials, st.nextId) && Linked(st.serials) && i in st.serials && LotsAgree(st.serials)
    ensures SameLot(st.serials[i], st.serials[End(st, i)])
    decreases st.nextId - i
  {
    assert LinkOk(st.serials, i);
    if st.serials[i].replacedBy.Some? {
      LotsAlongChain(st, st.serials[i].replacedBy.value);
    }
  }

  // ----- Counting units -----

  ghost function InUse(serials: Serials): set<nat> {
    set i | i in serials && serials[i].active
  }

  /** A replacement takes one label out of use and puts one in: the number of units is unchanged. */
  lemma ReplaceKeepsUnitCount(st: Stock, oldNumber: string, newNumber: string, expected: SerialStatus, now: int)
    requires Bounded(st.serials, st.nextId) && Replace(st, oldNumber, newNumber, expected, now).Some?
    ensures var after := Replace(st, oldNumber, newNumber, expected, now).value;
            InUse(after.serials) == InUse(st.serials) - {Lookup(st.serials, oldNumber).value} + {st.nextId}
            && |InUse(after.serials)| == |InUse(st.serials)|
  {
    hide IsMasterSerial;
    var i := Lookup(st.serials, oldNumber).value;
    assert i in InUse(st.serials) && st.nextId !in st.serials;
  }

  /** Everything that tells stock apart, but for the label. */
  datatype StockKey = StockKey(
    product: nat,
    lot: Option<string>,
    mfgDate: Option<int>,
    expiry: Option<int>,
    location: Option<nat>,
    warehouse: Option<string>)

  function KeyOfUnit(s: Serial): StockKey {
    StockKey(s.product, s.lot, s.mfgDate, s.expiry, s.location, s.warehouse)
  }

  ghost function InUseAs(serials: Serials, key: StockKey): set<nat> {
    set i | i in serials && serials[i].active && KeyOfUnit(serials[i]) == key
  }

  /** No stock figure moves: of each product, lot, dates and place, as many units are in use as before. */
  lemma ReplaceKeepsStockFigures(st: Stock, oldNumber: string, newNumber: string, expected: SerialStatus, now: int,
      key: StockKey)
    requires Bounded(st.serials, st.nextId) && Replace(st, oldNumber, newNumber, expected, now).Some?
    ensures |InUseAs(Replace(st, oldNumber, newNumber, expected, now).value.serials, key)| == |InUseAs(st.serials, key)|
  {
    hide IsMasterSerial, Replaceable, NumberTaken, ReplacementStatus, InUseAs;
    var i, j := Lookup(st.serials, oldNumber).value, st.nextId;
    SwapKeepsFigures(st.serials, i, j, Retire(st.serials[i], j), Successor(st.serials[i], newNumber, now), key);
  }

  lemma SwapKeepsFigures(serials: Serials, i: nat, j: nat, retiree: Serial, successor: Serial, key: StockKey)
    requires i in serials && serials[i].active && j !in serials
    requires !retiree.active && successor.active && KeyOfUnit(successor) == KeyOfUnit(serials[i])
    ensures |InUseAs(serials[i := retiree][j := successor], key)| == |InUseAs(serials, key)|
  {
    hide KeyOfUnit;
    var two := serials[i := retiree][j := successor];
    assert forall x :: x in two <==> x in serials || x == j;
    assert forall x :: x in serials && x != i ==> two[x] == serials[x];
    var before, after := InUseAs(serials, key), InUseAs(two, key);
    if KeyOfUnit(serials[i]) == key {
      assert forall x :: x in after <==> (x in before && x != i) || x == j;
      assert after == before - {i} + {j};
      SwapSize(before, i, j);
    } else {
      assert after == before;
    }
  }

  lemma SwapSize(s: set<nat>, i: nat, j: nat)
    requires i in s && j !in s
    ensures |s - {i} + {j}| == |s|
  {
  }

  /** Each label of an allocation becomes one row in use, with its own number, lot, dates and warehouse. */
  lemma {:induction false} AllocatedAt(serials: Serials, nextId: nat, product: nat, labels: seq<Label>, now: int,
      k: nat)
    requires Bounded(serials, nextId) && k < |labels|
    ensures var s, l := Allocated(serials, nextId, product, labels, now)[nextId + k], labels[k];
            s.number == l.number && s.lot == l.lot && s.mfgDate == l.mfgDate && s.expiry == l.expiry
              && s.warehouse == l.warehouse
            && s.product == product && s.status == Generated && s.active && s.location.None? && s.replacedBy.None?
    decreases |labels|
  {
    if k < |labels| - 1 {
      AllocatedAt(serials, nextId, product, labels[..|labels| - 1], now, k);
    }
  }

  /** An allocation adds exactly its labels. */
  lemma {:induction false} AllocateAddsUnits(serials: Serials, nextId: nat, product: nat, labels: seq<Label>, now: int)
    requires Bounded(serials, nextId)
    ensures |InUse(Allocated(serials, nextId, product, labels, now))| == |InUse(serials)| + |labels|
    decreases |labels|
  {
    if labels != [] {
      var n := |labels| - 1;
      var before := Allocated(serials, nextId, product, labels[..n], now);
      AllocateAddsUnits(serials, nextId, product, labels[..n], now);
      assert InUse(Allocated(serials, nextId, product, labels, now)) == InUse(before) + {nextId + n};
    }
  }

  // ----- Each label in use belongs to exactly one unit -----

  lemma {:induction false} RootOf(st: Stock, e: nat) returns (r: nat)
    requires Bounded(st.serials, st.nextId) && Linked(st.serials) && e in st.serials
    ensures IsRoot(st.serials, r) && End(st, r) == End(st, e)
    decreases e
  {
    if IsRoot(st.serials, e) {
      r := e;
    } else {
      var p :| p in st.serials && st.serials[p].replacedBy == Some(e);
      assert LinkOk(st.serials, p);
      r := RootOf(st, p);
    }
  }

  /** Units and labels in use correspond one to one: a label in use is the end of exactly one chain. */
  lemma OneUnitPerLabel(st: Stock, retired: set<nat>, e: nat)
    requires Labelled(st, retired) && e in st.serials && st.serials[e].active
    ensures exists r :: IsRoot(st.serials, r) && End(st, r) == e
    ensures forall r, q :: IsRoot(st.serials, r) && IsRoot(st.serials, q) && End(st, r) == e && End(st, q) == e ==>
            r == q
  {
    assert LinkOk(st.serials, e);
    var r := RootOf(st, e);
    forall r, q | IsRoot(st.serials, r) && IsRoot(st.serials, q) && End(st, r) == e && End(st, q) == e
      ensures r == q
    {
      ChainsNeverMeet(st, r, q);
    }
  }
}
