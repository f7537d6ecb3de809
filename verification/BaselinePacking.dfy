/**
 Packing the initial inventory into as few events as Master's limits allow
 (`_partition_initial_inventory_items`, app/services/master_sync.py).
 */
module BaselinePacking {
  import opened Options
  import opened CanonicalJson
  import opened EventEnvelope
  import opened Sequences

  type Part = seq<Json>

  function ItemSize(item: Json): nat {
    Size(Print(item))
  }

  /** A chunk fits as part number `part` (from 1) under both limits. */
  predicate Fits(b: Baseline, part: nat, chunk: Part) {
    |chunk| <= MAX_ITEMS && ConservativeSize(b, part, chunk) <= MAX_BODY_BYTES
  }

  /** So its body, under the widest sequence number, holds at most 5000 items and 5 MiB. */
  lemma FitsExactly(b: Baseline, part: nat, chunk: Part)
    ensures Fits(b, part, chunk) <==>
              |chunk| <= 5000
              && Size(PartBody(b, part, chunk, PlaceholderId(), 9_223_372_036_854_775_807)) <= 5 * 1024 * 1024
  {
    hide PartBody, PlaceholderId, Size, ConservativeSize;
    EstimateExact(b, part, chunk);
  }

  /** A way to split the items, in order, into non-empty parts that fit. */
  ghost predicate IsPacking(b: Baseline, items: seq<Json>, parts: seq<Part>) {
    && Flatten(parts) == items
    && forall m :: 0 <= m < |parts| ==> parts[m] != [] && Fits(b, m + 1, parts[m])
  }

  // ----- The greedy packer -----

  /** The closed parts, and the part being filled. */
  datatype Packing = Packing(closed: seq<Part>, current: Part)
  {
    function Parts(): seq<Part> {
      if current == [] then closed else closed + [current]
    }
  }

  function Add(b: Baseline, p: Packing, item: Json): Option<Packing> {
    var p' :=
      if p.current != [] && !Fits(b, |p.closed| + 1, p.current + [item])
      then Packing(p.closed + [p.current], [])
      else p;
    if p'.current == [] && Envelope(b, |p'.closed| + 1) + ItemSize(item) > MAX_BODY_BYTES then None
    else Some(p'.(current := p'.current + [item]))
  }

  function PackAll(b: Baseline, items: seq<Json>): Option<Packing> {
    if items == [] then Some(Packing([], []))
    else
      var p :- PackAll(b, items[..|items| - 1]);
      Add(b, p, items[|items| - 1])
  }

  function Pack(b: Baseline, items: seq<Json>): Option<seq<Part>> {
    var p :- PackAll(b, items);
    Some(p.Parts())
  }

  lemma {:induction false} PrintAllConcat(a: seq<Json>, c: seq<Json>)
    ensures PrintAll(a + c) == PrintAll(a) + PrintAll(c)
    decreases |a|
  {
    if a == [] {
      assert a + c == c;
    } else {
      assert (a + c)[1..] == a[1..] + c;
      PrintAllConcat(a[1..], c);
    }
  }

  lemma {:induction false} SizeAllConcat(a: seq<string>, c: seq<string>)
    ensures SizeAll(a + c) == SizeAll(a) + SizeAll(c)
  {
    if a == [] {
      assert a + c == c;
    } else {
      assert (a + c)[1..] == a[1..] + c;
      SizeAllConcat(a[1..], c);
    }
  }

  lemma ItemsSizeConcat(a: seq<Json>, c: seq<Json>)
    ensures SizeAll(PrintAll(a + c)) == SizeAll(PrintAll(a)) + SizeAll(PrintAll(c))
  {
    PrintAllConcat(a, c);
    SizeAllConcat(PrintAll(a), PrintAll(c));
  }

  lemma OneItemSize(item: Json)
    ensures SizeAll(PrintAll([item])) == ItemSize(item) == ContentSize([item])
  {
    assert [item][1..] == [];
    assert PrintAll([item]) == [Print(item)];
    assert [Print(item)][1..] == [];
  }

  /** Adding one item adds its size, and a comma unless it is the first. */
  lemma ContentGrows(chunk: Part, item: Json)
    ensures ContentSize(chunk + [item]) == ContentSize(chunk) + ItemSize(item) + (if chunk == [] then 0 else 1)
  {
    ItemsSizeConcat(chunk, [item]);
    OneItemSize(item);
  }

  method Partition(b: Baseline, items: seq<Json>) returns (r: Option<seq<Part>>)
    ensures r == Pack(b, items)
  {
    hide Print, PrintAll, Envelope, SizeAll, Size, ContentSize;
    var chunks: seq<Part>, current: Part := [], [];
    var currentSize: nat := 0;
    var partNumber := 1;
    var envelope := Envelope(b, 1);
    EmptyContent();
    for i := 0 to |items|
      invariant partNumber == |chunks| + 1
      invariant envelope == Envelope(b, partNumber)
      invariant currentSize == ContentSize(current)
      invariant PackAll(b, items[..i]) == Some(Packing(chunks, current))
    {
      assert items[..i + 1][..i] == items[..i];
      var item := items[i];
      var itemSize := ItemSize(item);
      var itemAddition := itemSize + (if current != [] then 1 else 0);
      ContentGrows(current, item);
      var candidateFits := |current| + 1 <= MAX_ITEMS && envelope + currentSize + itemAddition <= MAX_BODY_BYTES;
      if !candidateFits && current != [] {
        chunks := chunks + [current];
        current := [];
        partNumber := partNumber + 1;
        envelope := Envelope(b, partNumber);
        currentSize := 0;
        itemAddition := itemSize;
        ContentGrows(current, item);
      }
      if current == [] && envelope + itemSize > MAX_BODY_BYTES {
        PackFails(b, items, i + 1);
        return None;
      }
      current := current + [item];
      currentSize := currentSize + itemAddition;
    }
    assert items[..|items|] == items;
    if current != [] {
      chunks := chunks + [current];
    }
    return Some(chunks);
  }

  lemma EmptyContent()
    ensures ContentSize([]) == 0
  {
  }

  lemma {:induction false} PackFails(b: Baseline, items: seq<Json>, i: nat)
    requires i <= |items| && PackAll(b, items[..i]) == None
    ensures PackAll(b, items) == None
    decreases |items| - i
  {
    hide Add;
    if i < |items| {
      assert items[..i + 1][..i] == items[..i];
      PackFails(b, items, i + 1);
    } else {
      assert items[..i] == items;
    }
  }

  // ----- What it packs is a packing -----

  /** How many items the first `m` parts hold. */
  ghost function Covered(parts: seq<Part>, m: nat): nat
    requires m <= |parts|
  {
    |Flatten(parts[..m])|
  }

  lemma CoveredStep(parts: seq<Part>, m: nat)
    requires m < |parts|
    ensures Flatten(parts[..m + 1]) == Flatten(parts[..m]) + parts[m]
    ensures Covered(parts, m + 1) == Covered(parts, m) + |parts[m]|
  {
    FlattenSnoc(parts[..m], parts[m]);
    assert parts[..m] + [parts[m]] == parts[..m + 1];
  }

  lemma {:induction false} FlattenPrefix(parts: seq<Part>, m: nat)
    requires m <= |parts|
    ensures Flatten(parts[..m]) <= Flatten(parts)
    decreases |parts| - m
  {
    if m < |parts| {
      FlattenPrefix(parts, m + 1);
      CoveredStep(parts, m);
    } else {
      assert parts[..m] == parts;
    }
  }

  /** Part `m` holds the items from `Covered(m)` to `Covered(m + 1)`. */
  lemma PartIsSlice(parts: seq<Part>, m: nat)
    requires m < |parts|
    ensures Covered(parts, m) <= Covered(parts, m + 1) <= |Flatten(parts)|
    ensures parts[m] == Flatten(parts)[Covered(parts, m)..Covered(parts, m + 1)]
  {
    FlattenPrefix(parts, m);
    FlattenPrefix(parts, m + 1);
    CoveredStep(parts, m);
    var items := Flatten(parts);
    assert items[..Covered(parts, m + 1)] == Flatten(parts[..m]) + parts[m];
  }

  /**
   The packer's invariant: the parts so far are a packing, and no closed part could have
   taken the first item of the part after it.
   */
  ghost predicate Greedy(b: Baseline, items: seq<Json>, p: Packing) {
    && IsPacking(b, items, p.Parts())
    && (items != [] ==> p.current != [])
    && forall m :: 0 <= m < |p.closed| ==> !Fits(b, m + 1, p.closed[m] + [FirstAfter(p, m)])
  }

  ghost function FirstAfter(p: Packing, m: nat): Json
    requires m < |p.closed|
  {
    var next := if m + 1 < |p.closed| then p.closed[m + 1] else p.current;
    if next == [] then Null else next[0]
  }

  lemma {:induction false} PackAllIsGreedy(b: Baseline, items: seq<Json>)
    requires PackAll(b, items).Some?
    ensures Greedy(b, items, PackAll(b, items).value)
    decreases |items|
  {
    hide Greedy, Add;
    if items == [] {
      EmptyGreedy(b);
    } else {
      var init, item := items[..|items| - 1], items[|items| - 1];
      PackAllIsGreedy(b, init);
      assert items == init + [item];
      AddIsGreedy(b, init, PackAll(b, init).value, item);
    }
  }

  lemma EmptyGreedy(b: Baseline)
    ensures Greedy(b, [], Packing([], []))
  {
  }

  lemma AddIsGreedy(b: Baseline, items: seq<Json>, p: Packing, item: Json)
    requires Greedy(b, items, p) && Add(b, p, item).Some?
    ensures Greedy(b, items + [item], Add(b, p, item).value)
  {
    hide Envelope, ItemSize, Flatten, Greedy, Fits;
    var after := Add(b, p, item).value;
    AddedFits(b, p, item);
    if p.current == [] {
      NothingClosed(b, items, p);
      assert after == Packing([], [item]) && items + [item] == [item];
      FirstItem(b, item);
    } else if Fits(b, |p.closed| + 1, p.current + [item]) {
      assert after == Packing(p.closed, p.current + [item]);
      OneMore(b, items, p, item);
    } else {
      assert after == Packing(p.closed + [p.current], [item]);
      NewPart(b, items, p, item);
    }
  }

  lemma AddedFits(b: Baseline, p: Packing, item: Json)
    requires Add(b, p, item).Some?
    ensures var after := Add(b, p, item).value; |after.current| == 1 ==> Fits(b, |after.closed| + 1, [item])
  {
    hide Envelope, ContentSize;
    OneItemSize(item);
  }

  lemma FirstItem(b: Baseline, item: Json)
    requires Fits(b, 1, [item])
    ensures Greedy(b, [item], Packing([], [item]))
  {
    hide Fits;
    FlattenSnoc([], [item]);
    FlattenNothing();
    assert [] + [[item]] == [[item]] && [] + [item] == [item];
  }

  lemma OneMore(b: Baseline, items: seq<Json>, p: Packing, item: Json)
    requires Greedy(b, items, p) && p.current != []
    requires Fits(b, |p.closed| + 1, p.current + [item])
    ensures Greedy(b, items + [item], Packing(p.closed, p.current + [item]))
  {
    hide Fits, Flatten;
    var after := Packing(p.closed, p.current + [item]);
    FlattenSnoc(p.closed, p.current);
    FlattenSnoc(p.closed, p.current + [item]);
    assert Flatten(p.closed) + (p.current + [item]) == Flatten(p.closed) + p.current + [item];
    forall m | 0 <= m < |p.closed|
      ensures after.Parts()[m] == p.Parts()[m] && FirstAfter(after, m) == FirstAfter(p, m)
    {
    }
  }

  lemma NewPart(b: Baseline, items: seq<Json>, p: Packing, item: Json)
    requires Greedy(b, items, p) && p.current != []
    requires !Fits(b, |p.closed| + 1, p.current + [item]) && Fits(b, |p.closed| + 2, [item])
    ensures Greedy(b, items + [item], Packing(p.closed + [p.current], [item]))
  {
    hide Fits, Flatten, IsPacking, FirstAfter;
    var after := Packing(p.closed + [p.current], [item]);
    assert after.Parts() == p.Parts() + [[item]];
    OnePartMore(b, items, p.Parts(), item);
    forall m | 0 <= m < |after.closed|
      ensures !Fits(b, m + 1, after.closed[m] + [FirstAfter(after, m)])
    {
      FirstAfterNewPart(p, item, m);
    }
  }

  lemma OnePartMore(b: Baseline, items: seq<Json>, parts: seq<Part>, item: Json)
    requires IsPacking(b, items, parts) && Fits(b, |parts| + 1, [item])
    ensures IsPacking(b, items + [item], parts + [[item]])
  {
    hide Fits, Flatten;
    FlattenSnoc(parts, [item]);
  }

  lemma FirstAfterNewPart(p: Packing, item: Json, m: nat)
    requires p.current != [] && m <= |p.closed|
    ensures var after := Packing(p.closed + [p.current], [item]);
            FirstAfter(after, m) == if m < |p.closed| then FirstAfter(p, m) else item
  {
  }

  lemma FlattenNothing()
    ensures Flatten<Json>([]) == []
  {
  }

  lemma NothingClosed(b: Baseline, items: seq<Json>, p: Packing)
    requires Greedy(b, items, p) && p.current == []
    ensures items == [] && p.closed == []
  {
  }

  // ----- No packing does better, and none exists when the packer gives up -----

  /** Part of what fits also fits, under the same or an earlier part number. */
  lemma SliceFits(b: Baseline, part: nat, earlier: nat, chunk: Part, lo: nat, hi: nat)
    requires Fits(b, part, chunk) && earlier <= part
    requires lo <= hi <= |chunk|
    ensures Fits(b, earlier, chunk[lo..hi])
  {
    hide Envelope, PrintAll, SizeAll;
    EnvelopeMonotone(b, earlier, part);
    assert chunk == chunk[..lo] + chunk[lo..hi] + chunk[hi..];
    ItemsSizeConcat(chunk[..lo] + chunk[lo..hi], chunk[hi..]);
    ItemsSizeConcat(chunk[..lo], chunk[lo..hi]);
  }

  lemma SliceOfSlice(s: seq<Json>, a: nat, a': nat, x: nat, y: nat)
    requires a <= a' <= |s| && x <= y <= a' - a
    ensures s[a..a'][x..y] == s[a + x..a + y]
  {
    var left, right := s[a..a'][x..y], s[a + x..a + y];
    assert |left| == |right|;
    assert forall i :: 0 <= i < |left| ==> left[i] == s[a + x + i] == right[i];
  }

  /** A part that starts no later than `g` and fits cannot reach past an item refused with `g`. */
  lemma CannotReach(b: Baseline, part: nat, whole: seq<Json>, a: nat, a': nat, g: nat, h: nat)
    requires a <= a' <= |whole| && a <= g <= h < |whole|
    requires Fits(b, part, whole[a..a'])
    requires !Fits(b, part, whole[g..h] + [whole[h]])
    ensures a' <= h
  {
    hide Fits;
    if a' > h {
      SliceOfSlice(whole, a, a', g - a, h + 1 - a);
      assert whole[g..h + 1] == whole[g..h] + [whole[h]];
      SliceFits(b, part, part, whole[a..a'], g - a, h + 1 - a);
    }
  }

  /** The packer stays ahead: its first `m` parts hold at least as much as any packing's. */
  lemma {:induction false} StaysAhead(b: Baseline, items: seq<Json>, more: seq<Json>, p: Packing,
                                      other: seq<Part>, m: nat)
    requires Greedy(b, items, p)
    requires IsPacking(b, items + more, other)
    requires m <= |p.closed| && m <= |other|
    ensures Covered(other, m) <= Covered(p.Parts(), m)
  {
    hide Fits, Greedy, Covered;
    if m == 0 {
      NothingCovered(other);
      NothingCovered(p.Parts());
    } else {
      StaysAhead(b, items, more, p, other, m - 1);
      PackingSlice(b, items + more, other, m - 1);
      ClosedSlice(b, items, more, p, m - 1);
      CannotReach(b, m, items + more, Covered(other, m - 1), Covered(other, m),
        Covered(p.Parts(), m - 1), Covered(p.Parts(), m));
    }
  }

  lemma NothingCovered(parts: seq<Part>)
    ensures Covered(parts, 0) == 0
  {
    assert parts[..0] == [];
  }

  lemma PackingSlice(b: Baseline, items: seq<Json>, parts: seq<Part>, m: nat)
    requires IsPacking(b, items, parts) && m < |parts|
    ensures Covered(parts, m) < Covered(parts, m + 1) <= |items|
    ensures parts[m] == items[Covered(parts, m)..Covered(parts, m + 1)]
    ensures Fits(b, m + 1, parts[m])
  {
    hide Fits, Flatten;
    PartIsSlice(parts, m);
  }

  /** A closed part, as a slice of the items, and the next item it refused. */
  lemma ClosedSlice(b: Baseline, items: seq<Json>, more: seq<Json>, p: Packing, m: nat)
    requires Greedy(b, items, p) && m < |p.closed|
    ensures var g, h := Covered(p.Parts(), m), Covered(p.Parts(), m + 1);
      g <= h < |items| && !Fits(b, m + 1, (items + more)[g..h] + [(items + more)[h]])
  {
    hide Fits, Flatten, Covered;
    NextItem(b, items, p, m);
    PackingSlice(b, items, p.Parts(), m);
    var g, h := Covered(p.Parts(), m), Covered(p.Parts(), m + 1);
    assert (items + more)[g..h] == items[g..h];
  }

  /** The item a closed part refused is the next one. */
  lemma NextItem(b: Baseline, items: seq<Json>, p: Packing, m: nat)
    requires Greedy(b, items, p) && m < |p.closed|
    ensures var h := Covered(p.Parts(), m + 1);
      h < |items| && FirstAfter(p, m) == items[h] && !Fits(b, m + 1, p.Parts()[m] + [items[h]])
  {
    hide Fits, Flatten;
    var parts := p.Parts();
    if p.current == [] {
      NothingClosed(b, items, p);
    }
    PartIsSlice(parts, m + 1);
    assert parts[m + 1] != [];
    CoveredStep(parts, m + 1);
    assert FirstAfter(p, m) == parts[m + 1][0];
  }

  lemma {:induction false} CoveredGrows(b: Baseline, items: seq<Json>, parts: seq<Part>, m: nat)
    requires IsPacking(b, items, parts) && m < |parts|
    ensures Covered(parts, m) < |items|
  {
    hide Fits, Flatten;
    CoveredStep(parts, m);
    PartIsSlice(parts, m);
  }

  /** The result is a packing, and every other packing has at least as many parts. */
  lemma PackIsOptimal(b: Baseline, items: seq<Json>, other: seq<Part>)
    requires Pack(b, items).Some?
    requires IsPacking(b, items, other)
    ensures IsPacking(b, items, Pack(b, items).value)
    ensures |Pack(b, items).value| <= |other|
  {
    hide Fits, Flatten, Greedy;
    var p := PackAll(b, items).value;
    PackIsPacking(b, items);
    PackAllIsGreedy(b, items);
    if |other| < |p.Parts()| {
      assert items + [] == items;
      assert other[..|other|] == other;
      StaysAhead(b, items, [], p, other, |other|);
      CoveredGrows(b, items, p.Parts(), |other|);
    }
  }

  lemma PackIsPacking(b: Baseline, items: seq<Json>)
    requires Pack(b, items).Some?
    ensures IsPacking(b, items, Pack(b, items).value)
  {
    PackAllIsGreedy(b, items);
  }

  /** The part of a packing that holds item `i`. */
  lemma {:induction false} PartOf(parts: seq<Part>, i: nat, m: nat) returns (q: nat)
    requires m <= |parts| && i < Covered(parts, m)
    ensures q < m && Covered(parts, q) <= i < Covered(parts, q + 1)
  {
    if i < Covered(parts, m - 1) {
      q := PartOf(parts, i, m - 1);
    } else {
      q := m - 1;
    }
  }

  /** The packer gives up on an item only when no packing can hold the items up to it. */
  lemma RefusalIsFinal(b: Baseline, items: seq<Json>, item: Json, more: seq<Json>, other: seq<Part>)
    requires PackAll(b, items).Some? && Add(b, PackAll(b, items).value, item).None?
    ensures !IsPacking(b, items + [item] + more, other)
  {
    hide Fits, Flatten, Add, PackAll, Greedy;
    var p := PackAll(b, items).value;
    PackAllIsGreedy(b, items);
    if IsPacking(b, items + [item] + more, other) {
      var i, whole := |items|, items + [item] + more;
      assert other[..|other|] == other;
      var q := PartOf(other, i, |other|);
      RefusedAlone(b, p, item);
      if q < |p.Parts()| {
        Overtaken(b, items, item, more, p, other, q);
      } else {
        PackingSlice(b, whole, other, q);
        var k := i - Covered(other, q);
        SliceOfSlice(whole, Covered(other, q), Covered(other, q + 1), k, k + 1);
        assert whole[i..i + 1] == [item];
        SliceFits(b, q + 1, |p.Parts()| + 1, other[q], k, k + 1);
      }
    }
  }

  lemma RefusedAlone(b: Baseline, p: Packing, item: Json)
    requires Add(b, p, item).None?
    ensures !Fits(b, |p.Parts()| + 1, [item])
    ensures p.current != [] ==> !Fits(b, |p.closed| + 1, p.current + [item])
  {
    hide Envelope, ContentSize, ItemSize, Size, SizeAll, Print, PrintAll;
    OneItemSize(item);
    assert !Fits(b, |p.closed| + 1, [item]) || p.current != [];
  }

  /** No packing reaches past the packer's items within the packer's number of parts. */
  lemma Overtaken(b: Baseline, items: seq<Json>, item: Json, more: seq<Json>, p: Packing,
                  other: seq<Part>, q: nat)
    requires Greedy(b, items, p) && Add(b, p, item).None?
    requires IsPacking(b, items + [item] + more, other)
    requires q < |other| && q < |p.Parts()|
    ensures Covered(other, q + 1) <= |items|
  {
    hide Fits, Flatten, Covered, Add;
    var parts, whole := p.Parts(), items + [item] + more;
    assert whole == items + ([item] + more);
    PackingSlice(b, items, parts, q);
    if q + 1 <= |p.closed| {
      StaysAhead(b, items, [item] + more, p, other, q + 1);
    } else {
      StaysAhead(b, items, [item] + more, p, other, q);
      RefusedAlone(b, p, item);
      PackingSlice(b, whole, other, q);
      AllCovered(items, parts);
      var g := Covered(parts, q);
      assert whole[g..|items|] + [whole[|items|]] == p.current + [item];
      CannotReach(b, q + 1, whole, Covered(other, q), Covered(other, q + 1), g, |items|);
    }
  }

  lemma AllCovered(items: seq<Json>, parts: seq<Part>)
    requires Flatten(parts) == items
    ensures Covered(parts, |parts|) == |items|
  {
    assert parts[..|parts|] == parts;
  }

  /** The packer fails exactly when there is no packing at all. */
  lemma PackFailsExactly(b: Baseline, items: seq<Json>)
    ensures Pack(b, items).None? <==> forall parts: seq<Part> :: !IsPacking(b, items, parts)
  {
    hide IsPacking, Add;
    if Pack(b, items).Some? {
      PackIsPacking(b, items);
    } else {
      var i := FirstRefused(b, items);
      forall parts: seq<Part>
        ensures !IsPacking(b, items, parts)
      {
        RefusalIsFinal(b, items[..i], items[i], items[i + 1..], parts);
        assert items[..i] + [items[i]] + items[i + 1..] == items;
      }
    }
  }

  lemma {:induction false} FirstRefused(b: Baseline, items: seq<Json>) returns (i: nat)
    requires PackAll(b, items).None?
    ensures i < |items| && PackAll(b, items[..i]).Some?
    ensures Add(b, PackAll(b, items[..i]).value, items[i]).None?
    decreases |items|
  {
    hide Add;
    var init := items[..|items| - 1];
    if PackAll(b, init).None? {
      i := FirstRefused(b, init);
      assert init[..i] == items[..i];
    } else {
      i := |items| - 1;
    }
  }

  /** No part the packer makes is refused when it is frozen and enqueued. */
  lemma PackedPartsAreAcceptable(b: Baseline, items: seq<Json>, m: nat, eventId: string, sequence: nat)
    requires Pack(b, items).Some? && m < |Pack(b, items).value|
    requires IsEventId(eventId) && sequence <= MAX_SEQUENCE
    ensures var part := Pack(b, items).value[m];
      Acceptable(PartBody(b, m + 1, part, eventId, sequence), |part|)
  {
    hide PartBody, Size, Envelope, ContentSize;
    PackIsPacking(b, items);
    FrozenNeverLonger(b, m + 1, Pack(b, items).value[m], eventId, sequence);
  }
}
