/**
 Allocating and replacing labels in terms of the rows (app/services/master_qr.py:62-260): when each is accepted, and
 which rows there are afterwards.
 */
module LabelTerms {
  import opened Options
  import opened StockTypes
  import opened Replacement

  /** Four fixed characters and 32 hexadecimal digits in capitals. */
  ghost predicate IsLabel(number: string) {
    |number| == 36 && number[0] == 'S' && number[1] == 'Q' && number[2] == 'R' && number[3] == '-'
    && forall k :: 4 <= k < 36 ==> number[k] in "0123456789ABCDEF"
  }

  lemma MasterSerialInTerms(number: string)
    ensures IsMasterSerial(number) <==> IsLabel(number)
  {
    hide IsHex;
    forall c: char
      ensures IsHex(c) <==> c in "0123456789ABCDEF"
    {
      HexInTerms(c);
    }
    if |number| == 36 {
      assert number[..4] == [number[0], number[1], number[2], number[3]];
      assert forall k :: 4 <= k < 36 ==> number[k] == number[4..][k - 4];
      assert forall k :: 0 <= k < 32 ==> number[4..][k] == number[k + 4];
    }
  }

  lemma HexInTerms(c: char)
    ensures IsHex(c) <==> c in "0123456789ABCDEF"
  {
    var digits := "0123456789ABCDEF";
    assert forall k :: 0 <= k < 10 ==> digits[k] == '0' + k as char;
    assert forall k :: 10 <= k < 16 ==> digits[k] == 'A' + (k - 10) as char;
    if '0' <= c <= '9' {
      assert digits[(c - '0') as int] == c;
    } else if 'A' <= c <= 'F' {
      assert digits[10 + (c - 'A') as int] == c;
    }
  }

  // ----- Replacing a label -----

  /** The unit whose label may be replaced: in use, in the status Master expects, which is one of four. */
  ghost predicate MayReplace(st: Stock, i: nat, newNumber: string, expected: SerialStatus) {
    i in st.serials && st.serials[i].active && st.serials[i].status == expected
    && expected in {Generated, InStock, Returned, Damaged}
    && IsLabel(newNumber) && forall j <- st.serials :: st.serials[j].number != newNumber
  }

  /** The old row is invalid and out of use and points at a new one, which is the unit under its new number. */
  ghost predicate Relabelled(st: Stock, i: nat, newNumber: string, now: int, after: Stock)
    requires i in st.serials
  {
    var unit, j := st.serials[i], st.nextId;
    && after == st.(serials := after.serials, nextId := j + 1)
    && after.serials.Keys == st.serials.Keys + {j}
    && (forall k <- st.serials :: k != i && k != j ==> after.serials[k] == st.serials[k])
    && (i != j ==> after.serials[i] == unit.(status := Invalid, active := false, replacedBy := Some(j)))
    && var s := after.serials[j];
       s == unit.(number := newNumber, origin := s.status, status := s.status, active := true, createdAt := now,
                  replacedBy := None)
       && s.status == (if unit.status == Generated then Generated else InStock)
  }

  /** A replacement is accepted exactly for such a unit, found by its old number, and relabels it. */
  lemma ReplaceInTerms(st: Stock, oldNumber: string, newNumber: string, expected: SerialStatus, now: int)
    requires NumberTaken(st.serials, oldNumber)
    ensures Lookup(st.serials, oldNumber).Some?
    ensures var i, r := Lookup(st.serials, oldNumber).value, Replace(st, oldNumber, newNumber, expected, now);
            (r.Some? <==> MayReplace(st, i, newNumber, expected))
            && (r.Some? ==> Relabelled(st, i, newNumber, now, r.value))
  {
    hide IsMasterSerial, IsLabel;
    MasterSerialInTerms(newNumber);
  }

  lemma NothingToReplace(st: Stock, oldNumber: string, newNumber: string, expected: SerialStatus, now: int)
    requires forall i <- st.serials :: st.serials[i].number != oldNumber
    ensures Replace(st, oldNumber, newNumber, expected, now) == None
  {
    hide IsMasterSerial;
  }

  // ----- Allocating labels -----

  /** What Master may allocate: up to 500 different new labels, whose goods are made before they expire. */
  ghost predicate MayAllocate(st: Stock, labels: seq<Label>) {
    && 1 <= |labels| <= 500
    && (forall j, k :: 0 <= j < k < |labels| ==> labels[j].number != labels[k].number)
    && (forall l <- labels :: IsLabel(l.number) && forall j <- st.serials :: st.serials[j].number != l.number)
    && forall l <- labels :: l.mfgDate.Some? && l.expiry.Some? ==> l.mfgDate.value < l.expiry.value
  }

  /** A new row for each label, waiting to be assigned, with the label's own data. */
  ghost predicate AllAdded(st: Stock, product: nat, labels: seq<Label>, now: int, after: Stock) {
    && after == st.(serials := after.serials, nextId := st.nextId + |labels|)
    && (forall i: nat :: i in after.serials <==> i in st.serials || st.nextId <= i < st.nextId + |labels|)
    && (forall i <- st.serials :: i < st.nextId ==> after.serials[i] == st.serials[i])
    && forall k :: 0 <= k < |labels| ==>
         st.nextId + k in after.serials && IsRowOf(labels[k], product, now, after.serials[st.nextId + k])
  }

  ghost predicate IsRowOf(l: Label, product: nat, now: int, s: Serial) {
    s.number == l.number && s.product == product && s.origin == Generated && s.status == Generated && s.active
    && s.lot == l.lot && s.mfgDate == l.mfgDate && s.expiry == l.expiry && s.createdAt == now
    && s.location == None && s.warehouse == l.warehouse && s.replacedBy == None
  }

  lemma {:induction false} AllocatedRows(serials: Serials, nextId: nat, product: nat, labels: seq<Label>, now: int)
    ensures var after := Allocated(serials, nextId, product, labels, now);
            (forall i <- serials :: i < nextId ==> after[i] == serials[i])
            && forall k :: 0 <= k < |labels| ==> IsRowOf(labels[k], product, now, after[nextId + k])
    decreases |labels|
  {
    if labels != [] {
      var init := labels[..|labels| - 1];
      AllocatedRows(serials, nextId, product, init, now);
      assert forall k :: 0 <= k < |init| ==> init[k] == labels[k];
    }
  }

  /** An allocation is accepted exactly on these terms, and adds exactly these rows. */
  lemma AllocateInTerms(st: Stock, product: nat, labels: seq<Label>, now: int)
    ensures var r := Allocate(st, product, labels, now);
            (r.Some? <==> MayAllocate(st, labels)) && (r.Some? ==> AllAdded(st, product, labels, now, r.value))
  {
    hide IsMasterSerial, IsLabel, Allocated, IsRowOf;
    forall l <- labels
      ensures IsMasterSerial(l.number) <==> IsLabel(l.number)
    {
      MasterSerialInTerms(l.number);
    }
    AllocatedRows(st.serials, st.nextId, product, labels, now);
  }
}
