/**
 First expiry, first out (app/services/expiry.py): the order in which units are offered, the
 check on a single scan, and the bulk pick.
 */
module Fefo {
  import opened Options
  import opened StockTypes

  // ----- The order: expiry (none last), then creation time, then id -----

  predicate ExpiryLess(a: Option<int>, b: Option<int>) {
    a.Some? && (b.None? || a.value < b.value)
  }

  predicate Earlier(serials: Serials, i: nat, j: nat)
    requires i in serials && j in serials
  {
    var a, b := serials[i], serials[j];
    if ExpiryLess(a.expiry, b.expiry) then true
    else if ExpiryLess(b.expiry, a.expiry) then false
    else if a.createdAt != b.createdAt then a.createdAt < b.createdAt
    else i < j
  }

  ghost predicate IsFirst(serials: Serials, ids: set<nat>, f: nat)
    requires ids <= serials.Keys
  {
    f in ids && forall i :: i in ids && i != f ==> Earlier(serials, f, i)
  }

  lemma SomeElement(s: set<nat>) returns (x: nat)
    requires s != {}
    ensures x in s
  {
    assert (forall y :: y !in s) ==> s == {};
    x :| x in s;
  }

  lemma FirstExists(serials: Serials, ids: set<nat>)
    requires ids != {} && ids <= serials.Keys
    ensures exists f :: IsFirst(serials, ids, f)
    decreases |ids|
  {
    var x := SomeElement(ids);
    if ids == {x} {
      assert IsFirst(serials, ids, x);
    } else {
      var rest := ids - {x};
      FirstExists(serials, rest);
      var f :| IsFirst(serials, rest, f);
      var least := if Earlier(serials, f, x) then f else x;
      assert forall i :: i in ids ==> i == x || i in rest;
      assert IsFirst(serials, ids, least);
    }
  }

  function First(serials: Serials, ids: set<nat>): (f: nat)
    requires ids != {} && ids <= serials.Keys
    ensures IsFirst(serials, ids, f)
  {
    FirstExists(serials, ids);
    var f :| f in ids && forall i <- ids :: i != f ==> Earlier(serials, f, i);
    f
  }

  /** The query's `ORDER BY`: the ids in FEFO order. */
  function Ordered(serials: Serials, ids: set<nat>): (r: seq<nat>)
    requires ids <= serials.Keys
    ensures |r| == |ids| && forall i :: i in r <==> i in ids
    decreases |ids|
  {
    if ids == {} then []
    else
      var f := First(serials, ids);
      [f] + Ordered(serials, ids - {f})
  }

  // ----- What the order means -----

  function Elements(s: seq<nat>): set<nat> {
    set i <- s
  }

  ghost predicate Sorted(serials: Serials, s: seq<nat>) {
    (forall k :: 0 <= k < |s| ==> s[k] in serials)
    && forall j, k :: 0 <= j < k < |s| ==> Earlier(serials, s[j], s[k])
  }

  lemma {:induction false} OrderedIsSorted(serials: Serials, ids: set<nat>)
    requires ids <= serials.Keys
    ensures Sorted(serials, Ordered(serials, ids)) && Elements(Ordered(serials, ids)) == ids
    decreases |ids|
  {
    hide First, Earlier, IsFirst;
    if ids != {} {
      var f := First(serials, ids);
      assert f in ids by { FirstIsIn(serials, ids, f); }
      var rest := Ordered(serials, ids - {f});
      OrderedIsSorted(serials, ids - {f});
      SortedCons(serials, ids, f, rest);
    }
  }

  lemma FirstIsIn(serials: Serials, ids: set<nat>, f: nat)
    requires ids <= serials.Keys && IsFirst(serials, ids, f)
    ensures f in ids
  {
  }

  lemma SortedCons(serials: Serials, ids: set<nat>, f: nat, rest: seq<nat>)
    requires ids <= serials.Keys && IsFirst(serials, ids, f)
    requires Sorted(serials, rest) && forall i :: i in rest <==> i in ids && i != f
    ensures Sorted(serials, [f] + rest)
  {
    hide Earlier;
    var r := [f] + rest;
    forall j, k | 0 <= j < k < |r|
      ensures Earlier(serials, r[j], r[k])
    {
      assert r[k] == rest[k - 1] && rest[k - 1] in rest;
    }
  }

  /** A sorted list is the query's answer on its own elements: the order leaves no freedom. */
  lemma {:induction false} SortedIsOrdered(serials: Serials, s: seq<nat>)
    requires Sorted(serials, s)
    ensures Elements(s) <= serials.Keys && s == Ordered(serials, Elements(s))
    decreases |s|
  {
    hide Sorted, First, IsFirst, Earlier, Elements, Ordered;
    if s == [] {
      assert Elements(s) == {} by { NoElements(); }
      OrderedNothing(serials);
    } else {
      SortedHead(serials, s);
      TailElements(s);
      SortedIsOrdered(serials, s[1..]);
      OnlyFirst(serials, Elements(s), s[0]);
      OrderedStep(serials, Elements(s));
      assert s == [s[0]] + s[1..];
    }
  }

  lemma OrderedNothing(serials: Serials)
    ensures Ordered(serials, {}) == []
  {
  }

  lemma OrderedStep(serials: Serials, ids: set<nat>)
    requires ids != {} && ids <= serials.Keys
    ensures var f := First(serials, ids);
            f in ids && Ordered(serials, ids) == [f] + Ordered(serials, ids - {f})
  {
    hide First, Earlier;
  }

  lemma NoElements()
    ensures Elements([]) == {}
  {
  }

  lemma SortedHead(serials: Serials, s: seq<nat>)
    requires Sorted(serials, s) && s != []
    ensures Sorted(serials, s[1..]) && s[0] !in s[1..]
    ensures Elements(s) <= serials.Keys && IsFirst(serials, Elements(s), s[0])
  {
    forall k | 0 < k < |s|
      ensures s[k] != s[0]
    {
      assert Earlier(serials, s[0], s[k]);
    }
    assert s[0] in Elements(s);
    forall i | i in Elements(s)
      ensures i in serials && (i != s[0] ==> Earlier(serials, s[0], i))
    {
      var k :| 0 <= k < |s| && s[k] == i;
    }
  }

  lemma OnlyFirst(serials: Serials, ids: set<nat>, f: nat)
    requires ids <= serials.Keys && IsFirst(serials, ids, f)
    ensures f in ids && First(serials, ids) == f
  {
  }

  lemma TailElements(s: seq<nat>)
    requires s != [] && s[0] !in s[1..]
    ensures Elements(s[1..]) == Elements(s) - {s[0]}
  {
    assert s == [s[0]] + s[1..];
  }

  /** Deleting one element. */
  function Without(s: seq<nat>, x: nat): (r: seq<nat>)
    ensures forall i :: i in r <==> i in s && i != x
  {
    if s == [] then [] else (if s[0] == x then [] else [s[0]]) + Without(s[1..], x)
  }

  lemma {:induction false} WithoutIsSorted(serials: Serials, s: seq<nat>, x: nat)
    requires Sorted(serials, s)
    ensures Sorted(serials, Without(s, x))
  {
    if s != [] {
      var rest := Without(s[1..], x);
      WithoutIsSorted(serials, s[1..], x);
      forall k | 0 <= k < |rest|
        ensures Earlier(serials, s[0], rest[k])
      {
        assert rest[k] in s[1..];
        var m :| 0 <= m < |s[1..]| && s[1..][m] == rest[k];
        assert s[m + 1] == rest[k];
      }
    }
  }

  /** Taking a unit out of the shelf takes it out of the queue, and moves nobody else. */
  lemma OrderedWithout(serials: Serials, ids: set<nat>, x: nat)
    requires ids <= serials.Keys
    ensures Ordered(serials, ids - {x}) == Without(Ordered(serials, ids), x)
  {
    hide Ordered, Sorted, Without;
    var s := Ordered(serials, ids);
    OrderedIsSorted(serials, ids);
    WithoutIsSorted(serials, s, x);
    SortedIsOrdered(serials, Without(s, x));
    assert Elements(Without(s, x)) == ids - {x};
  }

  /** Only expiry and creation time matter. */
  lemma OrderedFrame(serials: Serials, other: Serials, ids: set<nat>)
    requires ids <= serials.Keys && ids <= other.Keys
    requires forall i :: i in ids ==> other[i].expiry == serials[i].expiry && other[i].createdAt == serials[i].createdAt
    ensures Ordered(other, ids) == Ordered(serials, ids)
  {
    hide Ordered, Sorted, Elements, Earlier;
    var s := Ordered(serials, ids);
    OrderedIsSorted(serials, ids);
    SortedFrame(serials, other, s);
    SortedIsOrdered(other, s);
  }

  lemma SortedFrame(serials: Serials, other: Serials, s: seq<nat>)
    requires Sorted(serials, s)
    requires forall i :: i in s ==>
               i in serials && i in other
               && other[i].expiry == serials[i].expiry && other[i].createdAt == serials[i].createdAt
    ensures Sorted(other, s)
  {
    forall j, k | 0 <= j < k < |s|
      ensures s[j] in other && s[k] in other && Earlier(other, s[j], s[k])
    {
      assert s[j] in s && s[k] in s;
    }
    assert forall k :: 0 <= k < |s| ==> s[k] in s;
  }

  // ----- Candidates -----

  /** `fefo_available_statuses`. */
  function FefoStatuses(kind: BatchType): set<SerialStatus> {
    match kind
    case Issue => {InStock}
    case Sale => {InStock, Returned}
    case PurchaseReturn => {InStock, Returned}
    case _ => {}
  }

  predicate IsFefoType(kind: BatchType) {
    kind == Sale || kind == Issue || kind == PurchaseReturn
  }

  /** The serials in some open batch. */
  function Drafted(batches: map<nat, Batch>): set<nat> {
    set b <- batches, i <- batches[b].items | batches[b].draft :: i
  }

  predicate Offered(s: Serial, product: nat, statuses: set<SerialStatus>) {
    s.active && s.product == product && s.status in statuses
  }

  /** The serials the candidate query may return, with its `or STOCK_STATUSES` default. */
  function Available(st: Stock, product: nat, statuses: set<SerialStatus>): (ids: set<nat>)
    ensures ids <= st.serials.Keys
  {
    var wanted := if statuses == {} then {InStock, Returned} else statuses;
    set i | i in st.serials && Offered(st.serials[i], product, wanted) && i !in Drafted(st.batches)
  }

  function Take<T>(s: seq<T>, n: int): seq<T> {
    if n < 0 then [] else if n < |s| then s[..n] else s
  }

  /** `fefo_candidate_serials`. */
  function Candidates(st: Stock, product: nat, quantity: int, statuses: set<SerialStatus>): seq<nat> {
    if quantity < 1 then [] else Take(Ordered(st.serials, Available(st, product, statuses)), quantity)
  }

  /** `validate_fefo_scan`: no objection unless an earlier expiry is on offer. */
  predicate FefoAllows(st: Stock, kind: BatchType, i: nat)
    requires i in st.serials
  {
    var s := st.serials[i];
    if !IsFefoType(kind) || s.status !in FefoStatuses(kind) then true
    else
      var candidates := Candidates(st, s.product, 1, FefoStatuses(kind));
      candidates == [] || candidates[0] == i || !ExpiryLess(KeyOf(st.serials, candidates[0]), s.expiry)
  }

  function KeyOf(serials: Serials, i: nat): Option<int> {
    if i in serials then serials[i].expiry else None
  }

  /** The expiry keys of a list of serials. */
  function Keys(serials: Serials, s: seq<nat>): (keys: seq<Option<int>>)
    ensures |keys| == |s|
  {
    seq(|s|, k requires 0 <= k < |s| => KeyOf(serials, s[k]))
  }

  // ----- Scanning one at a time picks what the bulk pick picks -----

  /** A scan that takes any unit of the earliest expiry leaves the same keys as taking the first. */
  lemma {:induction false} WithoutKeys(serials: Serials, s: seq<nat>, x: nat)
    requires Sorted(serials, s) && x in s && KeyOf(serials, x) == KeyOf(serials, s[0])
    ensures Keys(serials, Without(s, x)) == Keys(serials, s)[1..]
  {
    hide Earlier, Without;
    if s[0] == x {
      HeadGone(serials, s);
    } else {
      var rest := s[1..];
      SecondKey(serials, s, x);
      WithoutKeys(serials, rest, x);
      WithoutLater(s, x);
      assert Keys(serials, rest)[1..] == Keys(serials, s)[2..];
      assert Keys(serials, s)[1] == Keys(serials, s)[0];
    }
  }

  lemma HeadGone(serials: Serials, s: seq<nat>)
    requires s != [] && Sorted(serials, s)
    ensures Without(s, s[0]) == s[1..]
  {
    assert s[0] !in s[1..];
    WithoutAbsent(s[1..], s[0]);
  }

  lemma WithoutLater(s: seq<nat>, x: nat)
    requires s != [] && s[0] != x
    ensures Without(s, x) == [s[0]] + Without(s[1..], x)
  {
  }

  /** Up to a unit with the first key, every unit has that key. */
  lemma SecondKey(serials: Serials, s: seq<nat>, x: nat)
    requires Sorted(serials, s) && x in s && s[0] != x && KeyOf(serials, x) == KeyOf(serials, s[0])
    ensures Sorted(serials, s[1..]) && x in s[1..] && KeyOf(serials, s[1]) == KeyOf(serials, x)
  {
    assert x in s[1..];
    var m :| 0 <= m < |s[1..]| && s[1..][m] == x;
    if m > 0 {
      assert Earlier(serials, s[0], s[1]) && Earlier(serials, s[1], s[m + 1]);
    }
  }

  lemma {:induction false} WithoutAbsent(s: seq<nat>, x: nat)
    requires x !in s
    ensures Without(s, x) == s
  {
    if s != [] {
      WithoutAbsent(s[1..], x);
    }
  }

  /** A unit the FEFO check lets through has the earliest expiry on offer. */
  lemma AllowedIsEarliest(st: Stock, kind: BatchType, i: nat)
    requires IsFefoType(kind) && i in st.serials
    requires i in Available(st, st.serials[i].product, FefoStatuses(kind))
    ensures FefoAllows(st, kind, i) <==>
            KeyOf(st.serials, i)
            == KeyOf(st.serials, Ordered(st.serials, Available(st, st.serials[i].product, FefoStatuses(kind)))[0])
  {
    var ids := Available(st, st.serials[i].product, FefoStatuses(kind));
    var f := First(st.serials, ids);
    assert Ordered(st.serials, ids)[0] == f;
    assert Candidates(st, st.serials[i].product, 1, FefoStatuses(kind)) == [f];
    if f != i {
      assert Earlier(st.serials, f, i);
    }
  }
}
