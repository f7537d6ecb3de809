/**
 Moving stock to another location (app/services/relocation.py): each requested item takes the
 first matching units in FEFO order; anything that does not fit undoes the whole move.
 `Relocate` follows the code, which queries after each item and screens out claimed serials;
 `Plan` says what it amounts to, read off the stock as it was before the move.
 */
module Relocation {
  import opened Options
  import opened StockTypes
  import opened Fefo
  import opened DraftBatches
  import opened Sequences
  import Text

  /** One line of the request. */
  datatype MoveItem = MoveItem(
    product: nat,
    quantity: int,
    lot: Option<string>,
    source: Option<nat>,
    legacy: Option<string>,
    serial: Option<nat>)

  // ----- Matching -----

  /** Python's truth of an optional string. */
  predicate Given(text: Option<string>) {
    text.Some? && text.value != ""
  }

  function TrimLeft(s: string): string {
    if s != "" && s[0] == ' ' then TrimLeft(s[1..]) else s
  }

  function TrimRight(s: string): string {
    if s != "" && s[|s| - 1] == ' ' then TrimRight(s[..|s| - 1]) else s
  }

  /** SQL `trim`. */
  function SqlTrim(s: string): string {
    TrimRight(TrimLeft(s))
  }

  predicate WarehouseMatches(item: MoveItem, warehouse: Option<string>) {
    if Given(item.legacy) then warehouse.Some? && Text.Upper(SqlTrim(warehouse.value)) == Normalize(item.legacy.value)
    else warehouse.None? || SqlTrim(warehouse.value) == ""
  }

  predicate Movable(s: Serial) {
    s.active && (s.status == InStock || s.status == Returned)
  }

  /** `_candidate_query`'s filter. */
  predicate Matches(item: MoveItem, i: nat, s: Serial) {
    Movable(s) && s.product == item.product
    && (item.serial.Some? ==> i == item.serial.value)
    && (if Given(item.lot) then s.lot == item.lot else s.lot.None?)
    && (if item.source.Some? then s.location == item.source
        else s.location.None? && WarehouseMatches(item, s.warehouse))
  }

  function Matching(serials: Serials, item: MoveItem): (ids: set<nat>)
    ensures ids <= serials.Keys
  {
    set i | i in serials && Matches(item, i, serials[i])
  }

  /** `_source_text`. */
  function SourceText(locations: map<nat, Location>, s: Serial): string {
    if s.location.Some? && s.location.value in locations then locations[s.location.value].path
    else if Given(s.warehouse) then Normalize(s.warehouse.value)
    else "UNASSIGNED"
  }

  predicate SameSource(locations: map<nat, Location>, serials: Serials, picked: seq<nat>)
    requires forall i <- picked :: i in serials
  {
    forall i <- picked :: SourceText(locations, serials[i]) == SourceText(locations, serials[picked[0]])
  }

  // ----- The move -----

  /** The checks on one line before it is looked up. */
  predicate ItemOk(item: MoveItem, destination: nat) {
    item.quantity >= 1 && (item.serial.Some? ==> item.quantity == 1) && item.source != Some(destination)
  }

  function Unclaimed(rows: seq<nat>, claimed: seq<nat>): (r: seq<nat>)
    ensures forall i <- r :: i in rows
  {
    if rows == [] then [] else (if rows[0] in claimed then [] else [rows[0]]) + Unclaimed(rows[1..], claimed)
  }

  /** The rows the conditional update may change. */
  function Claimable(serials: Serials, item: MoveItem, picked: seq<nat>): set<nat> {
    set i | i in picked && i in serials && Movable(serials[i]) && serials[i].location == item.source
  }

  /** A move under way: the serials, what has moved so far in order, and the log. */
  datatype Move = Move(serials: Serials, moved: seq<nat>, ledger: seq<Txn>)

  function PickItem(m: Move, item: MoveItem): (picked: seq<nat>)
    ensures forall i <- picked :: i in m.serials
  {
    var rows := Take(Ordered(m.serials, Matching(m.serials, item)), item.quantity + |Elements(m.moved)|);
    assert forall i <- rows :: i in Matching(m.serials, item);
    Take(Unclaimed(rows, m.moved), item.quantity)
  }

  function MoveRows(serials: Serials, picked: seq<nat>): (rows: seq<Txn>)
    requires forall i <- picked :: i in serials
    ensures |rows| == |picked|
  {
    seq(|picked|, k requires 0 <= k < |picked| =>
      Txn(RelocationTxn, picked[k], serials[picked[k]].status, serials[picked[k]].status))
  }

  function MoveOne(locations: map<nat, Location>, destination: nat, m: Move, item: MoveItem): Option<Move>
    requires destination in locations
  {
    if !ItemOk(item, destination) then None
    else
      var picked := PickItem(m, item);
      if |picked| != item.quantity || !SameSource(locations, m.serials, picked)
         || |Claimable(m.serials, item, picked)| != item.quantity then None
      else
        Some(Move(Placed(m.serials, picked, destination, locations[destination].warehouse), m.moved + picked,
                  m.ledger + MoveRows(m.serials, picked)))
  }

  function MoveAll(locations: map<nat, Location>, destination: nat, m: Move, items: seq<MoveItem>): Option<Move>
    requires destination in locations
    decreases |items|
  {
    if items == [] then Some(m)
    else
      var before :- MoveAll(locations, destination, m, items[..|items| - 1]);
      MoveOne(locations, destination, before, items[|items| - 1])
  }

  /** `relocate_stock` up to its commit. */
  function Relocate(st: Stock, locations: map<nat, Location>, destination: nat, items: seq<MoveItem>): Option<Move> {
    if destination !in locations || !locations[destination].active || items == [] then None
    else MoveAll(locations, destination, Move(st.serials, [], st.ledger), items)
  }

  // ----- What it amounts to -----

  /** The lists of units the lines take, each from what the earlier lines left over. */
  function Plan(serials: Serials, locations: map<nat, Location>, destination: nat,
      items: seq<MoveItem>): (r: Option<seq<seq<nat>>>)
    ensures r.Some? ==> |r.value| == |items| && forall i <- Flatten(r.value) :: i in serials
    decreases |items|
  {
    if items == [] then Some([])
    else
      var n := |items| - 1;
      var earlier :- Plan(serials, locations, destination, items[..n]);
      var left := Ordered(serials, Matching(serials, items[n]) - Elements(Flatten(earlier)));
      if !ItemOk(items[n], destination) || |left| < items[n].quantity
         || !SameSource(locations, serials, left[..items[n].quantity]) then None
      else
        assert Flatten(earlier + [left[..items[n].quantity]]) == Flatten(earlier) + left[..items[n].quantity];
        Some(earlier + [left[..items[n].quantity]])
  }

  // ----- One line -----

  /** Units already moved are at the destination, where no admissible line looks. */
  lemma ClaimedNeverMatch(serials: Serials, moved: seq<nat>, destination: nat, warehouse: string, item: MoveItem)
    requires ItemOk(item, destination)
    ensures Matching(Placed(serials, moved, destination, warehouse), item) == Matching(serials, item) - Elements(moved)
  {
    hide WarehouseMatches, Movable;
    var after := Placed(serials, moved, destination, warehouse);
    forall i | i in serials
      ensures Matches(item, i, after[i]) <==> Matches(item, i, serials[i]) && i !in moved
    {
      if i in moved {
        assert after[i].location == Some(destination);
      }
    }
  }

  lemma {:induction false} NothingClaimed(rows: seq<nat>, claimed: seq<nat>)
    requires forall i <- rows :: i !in claimed
    ensures Unclaimed(rows, claimed) == rows
  {
    if rows != [] {
      assert rows[0] in rows && forall i <- rows[1..] :: i in rows;
      NothingClaimed(rows[1..], claimed);
    }
  }

  /** The limit and the screening of claimed serials never show: the line takes the first that are left. */
  lemma PickIsFirstLeft(serials: Serials, m: Move, destination: nat, warehouse: string, item: MoveItem)
    requires ItemOk(item, destination) && m.serials == Placed(serials, m.moved, destination, warehouse)
    ensures PickItem(m, item) == Take(Ordered(serials, Matching(serials, item) - Elements(m.moved)), item.quantity)
  {
    hide *;
    var ids, limit := Matching(serials, item) - Elements(m.moved), item.quantity + |Elements(m.moved)|;
    assert item.quantity >= 1 by { ItemQuantity(item, destination); }
    QueryAfter(serials, m, destination, warehouse, item);
    UnclaimedRows(serials, ids, m.moved, limit);
    TakeTake(Ordered(serials, ids), limit, item.quantity);
    PickItemUnfolds(m, item);
  }

  lemma QueryAfter(serials: Serials, m: Move, destination: nat, warehouse: string, item: MoveItem)
    requires ItemOk(item, destination) && m.serials == Placed(serials, m.moved, destination, warehouse)
    ensures Ordered(m.serials, Matching(m.serials, item))
         == Ordered(serials, Matching(serials, item) - Elements(m.moved))
  {
    hide Ordered, Matching, ItemOk;
    ClaimedNeverMatch(serials, m.moved, destination, warehouse, item);
    OrderedFrame(serials, m.serials, Matching(serials, item) - Elements(m.moved));
  }

  lemma UnclaimedRows(serials: Serials, ids: set<nat>, claimed: seq<nat>, limit: int)
    requires ids <= serials.Keys && ids !! Elements(claimed)
    ensures Unclaimed(Take(Ordered(serials, ids), limit), claimed) == Take(Ordered(serials, ids), limit)
  {
    hide Ordered;
    var rows := Take(Ordered(serials, ids), limit);
    assert forall i <- rows :: i in ids;
    NothingClaimed(rows, claimed);
  }

  lemma TakeTake<T>(s: seq<T>, m: int, n: int)
    requires n <= m
    ensures Take(Take(s, m), n) == Take(s, n)
  {
  }

  lemma PickItemUnfolds(m: Move, item: MoveItem)
    ensures PickItem(m, item)
         == Take(Unclaimed(Take(Ordered(m.serials, Matching(m.serials, item)), item.quantity + |Elements(m.moved)|),
                           m.moved),
                 item.quantity)
  {
    hide Ordered, Matching, Take, Unclaimed;
  }

  lemma ItemQuantity(item: MoveItem, destination: nat)
    requires ItemOk(item, destination)
    ensures item.quantity >= 1
  {
  }

  lemma {:induction false} DistinctSize(s: seq<nat>)
    requires Distinct(s)
    ensures |Elements(s)| == |s|
  {
    if s == [] {
      assert Elements(s) == {};
    } else {
      TailElements(s);
      DistinctSize(s[1..]);
    }
  }

  /** The conditional update finds every unit that was picked. */
  lemma ClaimsAll(serials: Serials, item: MoveItem, picked: seq<nat>)
    requires Distinct(picked) && forall i <- picked :: i in Matching(serials, item)
    ensures |Claimable(serials, item, picked)| == |picked|
  {
    hide WarehouseMatches, Movable;
    DistinctSize(picked);
    assert Claimable(serials, item, picked) == Elements(picked);
  }

  lemma PlacedTwice(serials: Serials, a: seq<nat>, b: seq<nat>, location: nat, warehouse: string)
    ensures Placed(Placed(serials, a, location, warehouse), b, location, warehouse)
         == Placed(serials, a + b, location, warehouse)
  {
  }

  ghost function Outcome(serials: Serials, ledger: seq<Txn>, destination: nat, warehouse: string, moved: seq<nat>): Move
    requires forall i <- moved :: i in serials
  {
    Move(Placed(serials, moved, destination, warehouse), moved, ledger + MoveRows(serials, moved))
  }

  lemma MoveRowsConcat(serials: Serials, ledger: seq<Txn>, a: seq<nat>, b: seq<nat>, location: nat, warehouse: string)
    requires forall i <- a + b :: i in serials
    ensures (forall i <- a :: i in serials) && forall i <- b :: i in serials
    ensures ledger + MoveRows(serials, a) + MoveRows(Placed(serials, a, location, warehouse), b)
         == ledger + MoveRows(serials, a + b)
  {
    assert forall i <- a :: i in a + b;
    assert forall i <- b :: i in a + b;
    assert MoveRows(serials, a) + MoveRows(Placed(serials, a, location, warehouse), b) == MoveRows(serials, a + b);
  }

  lemma SameSourceLater(locations: map<nat, Location>, serials: Serials, moved: seq<nat>, picked: seq<nat>,
      destination: nat, warehouse: string)
    requires forall i <- picked :: i in serials && i !in moved
    ensures SameSource(locations, Placed(serials, moved, destination, warehouse), picked)
         == SameSource(locations, serials, picked)
  {
    hide SourceText;
    var after := Placed(serials, moved, destination, warehouse);
    assert forall i <- picked :: after[i] == serials[i];
    if picked != [] {
      assert picked[0] in picked;
    }
  }

  /** One line, carried out after `moved` have gone, takes the first units left over or refuses. */
  lemma LineIsPlanned(serials: Serials, ledger: seq<Txn>, locations: map<nat, Location>, destination: nat,
      moved: seq<nat>, item: MoveItem)
    requires destination in locations && forall i <- moved :: i in serials
    ensures var left := Ordered(serials, Matching(serials, item) - Elements(moved));
            var warehouse := locations[destination].warehouse;
            MoveOne(locations, destination, Outcome(serials, ledger, destination, warehouse, moved), item) ==
            if !ItemOk(item, destination) || |left| < item.quantity
               || !SameSource(locations, serials, left[..item.quantity]) then None
            else Some(Outcome(serials, ledger, destination, warehouse, moved + left[..item.quantity]))
  {
    hide Ordered, Matching, Placed, SameSource, Claimable, MoveRows, PickItem, SourceText, Elements;
    var warehouse := locations[destination].warehouse;
    var left := Ordered(serials, Matching(serials, item) - Elements(moved));
    if ItemOk(item, destination) {
      PickIsFirstLeft(serials, Outcome(serials, ledger, destination, warehouse, moved), destination, warehouse, item);
      if item.quantity <= |left| {
        assert Take(left, item.quantity) == left[..item.quantity];
        LineFits(serials, ledger, locations, destination, moved, item);
      }
    }
  }

  lemma LineFits(serials: Serials, ledger: seq<Txn>, locations: map<nat, Location>, destination: nat,
      moved: seq<nat>, item: MoveItem)
    requires destination in locations && forall i <- moved :: i in serials
    requires ItemOk(item, destination) && item.quantity <= |Ordered(serials, Matching(serials, item) - Elements(moved))|
    ensures var left := Ordered(serials, Matching(serials, item) - Elements(moved));
            var warehouse := locations[destination].warehouse;
            var picked, m := left[..item.quantity], Outcome(serials, ledger, destination, warehouse, moved);
            (forall i <- picked :: i in serials)
            && |Claimable(m.serials, item, picked)| == item.quantity
            && SameSource(locations, m.serials, picked) == SameSource(locations, serials, picked)
            && Placed(m.serials, picked, destination, warehouse)
              == Placed(serials, moved + picked, destination, warehouse)
            && m.ledger + MoveRows(m.serials, picked) == ledger + MoveRows(serials, moved + picked)
  {
    hide Ordered, Matching, Placed, SameSource, Claimable, MoveRows, SourceText;
    var warehouse := locations[destination].warehouse;
    var m := Outcome(serials, ledger, destination, warehouse, moved);
    var ids := Matching(serials, item) - Elements(moved);
    var left := Ordered(serials, ids);
    var picked := left[..item.quantity];
    OrderedIsDistinct(serials, ids);
    assert forall i <- picked :: i in left;
    ClaimedNeverMatch(serials, moved, destination, warehouse, item);
    ClaimsAll(m.serials, item, picked);
    SameSourceLater(locations, serials, moved, picked, destination, warehouse);
    PlacedTwice(serials, moved, picked, destination, warehouse);
    assert forall i <- moved + picked :: i in serials;
    MoveRowsConcat(serials, ledger, moved, picked, destination, warehouse);
  }

  lemma LineIsDistinct(serials: Serials, moved: seq<nat>, item: MoveItem)
    requires Distinct(moved)
    ensures var left := Ordered(serials, Matching(serials, item) - Elements(moved));
            0 <= item.quantity <= |left| ==> Distinct(moved + left[..item.quantity])
  {
    hide Ordered, Matching, Distinct;
    var ids := Matching(serials, item) - Elements(moved);
    var left := Ordered(serials, ids);
    OrderedIsDistinct(serials, ids);
    if 0 <= item.quantity <= |left| {
      assert forall i <- left[..item.quantity] :: i in left;
      DistinctConcat(moved, left, item.quantity);
    }
  }

  lemma DistinctConcat(a: seq<nat>, b: seq<nat>, n: nat)
    requires Distinct(a) && Distinct(b) && n <= |b| && forall i <- b[..n] :: i !in a
    ensures Distinct(a + b[..n])
  {
    forall j, k | 0 <= j < k < |a| + n
      ensures (a + b[..n])[j] != (a + b[..n])[k]
    {
      if k >= |a| {
        assert b[..n][k - |a|] in b[..n];
      }
    }
  }

  /**
   The move is its plan: it is refused exactly when the plan is, and otherwise every unit of the
   plan, each once and in the plan's order, is put at the destination and logged.
   */
  lemma {:induction false} MoveAllIsPlan(serials: Serials, ledger: seq<Txn>, locations: map<nat, Location>,
      destination: nat, items: seq<MoveItem>)
    requires destination in locations
    ensures var plan := Plan(serials, locations, destination, items);
            MoveAll(locations, destination, Move(serials, [], ledger), items) ==
            if plan.None? then None
            else Some(Outcome(serials, ledger, destination, locations[destination].warehouse, Flatten(plan.value)))
    ensures var plan := Plan(serials, locations, destination, items);
            plan.Some? ==> Distinct(Flatten(plan.value))
    decreases |items|
  {
    hide Ordered, Matching, ItemOk, MoveOne;
    if items == [] {
      assert Placed(serials, [], destination, locations[destination].warehouse) == serials;
      assert ledger + MoveRows(serials, []) == ledger;
    } else {
      var n := |items| - 1;
      MoveAllIsPlan(serials, ledger, locations, destination, items[..n]);
      var earlier := Plan(serials, locations, destination, items[..n]);
      if earlier.Some? {
        LineIsPlanned(serials, ledger, locations, destination, Flatten(earlier.value), items[n]);
        LineIsDistinct(serials, Flatten(earlier.value), items[n]);
        PlanStep(serials, locations, destination, items);
      }
    }
  }

  lemma PlanStep(serials: Serials, locations: map<nat, Location>, destination: nat, items: seq<MoveItem>)
    requires items != []
    ensures var n := |items| - 1;
            var earlier := Plan(serials, locations, destination, items[..n]);
            var plan := Plan(serials, locations, destination, items);
            if earlier.None? then plan.None?
            else
              var left := Ordered(serials, Matching(serials, items[n]) - Elements(Flatten(earlier.value)));
              if !ItemOk(items[n], destination) || |left| < items[n].quantity
                 || !SameSource(locations, serials, left[..items[n].quantity]) then plan.None?
              else plan.Some? && 0 <= items[n].quantity
                   && Flatten(plan.value) == Flatten(earlier.value) + left[..items[n].quantity]
                   && plan.value == earlier.value + [left[..items[n].quantity]]
  {
    hide Ordered, Matching, SourceText;
    var n := |items| - 1;
    var earlier := Plan(serials, locations, destination, items[..n]);
    if earlier.Some? {
      var left := Ordered(serials, Matching(serials, items[n]) - Elements(Flatten(earlier.value)));
      if ItemOk(items[n], destination) && items[n].quantity <= |left| {
        assert (earlier.value + [left[..items[n].quantity]])[..n] == earlier.value;
      }
    }
  }
}
