/**
 What a relocation may take and what it does to it (app/services/relocation.py:120-356), in terms of the rows: status,
 product, lot and place of the units, and their dates.
 */
module RelocationTerms {
  import opened Options
  import opened Sequences
  import opened StockTypes
  import opened Fefo
  import opened DraftBatches
  import opened Relocation
  import opened RelocationEffects
  import FefoDates
  import Text

  // ----- What a line asks for -----

  /** `t` is what is left of `s` without the spaces at its ends. */
  ghost predicate IsTrim(s: string, t: string) {
    exists k: nat, n: nat :: TrimAt(s, t, k, n)
  }

  ghost predicate TrimAt(s: string, t: string, k: nat, n: nat) {
    k <= n <= |s| && s[k..n] == t
    && (forall i :: 0 <= i < k || n <= i < |s| ==> s[i] == ' ')
    && (t != "" ==> t[0] != ' ' && t[|t| - 1] != ' ')
  }

  lemma {:induction false} TrimLeftAt(s: string) returns (k: nat)
    ensures k <= |s| && TrimLeft(s) == s[k..] && (forall i :: 0 <= i < k ==> s[i] == ' ')
    ensures TrimLeft(s) != "" ==> TrimLeft(s)[0] != ' '
  {
    if s != "" && s[0] == ' ' {
      k := TrimLeftAt(s[1..]);
      k := k + 1;
    } else {
      k := 0;
    }
  }

  lemma {:induction false} TrimRightAt(s: string) returns (n: nat)
    ensures n <= |s| && TrimRight(s) == s[..n] && (forall i :: n <= i < |s| ==> s[i] == ' ')
    ensures TrimRight(s) != "" ==> TrimRight(s)[|TrimRight(s)| - 1] != ' '
  {
    if s != "" && s[|s| - 1] == ' ' {
      n := TrimRightAt(s[..|s| - 1]);
    } else {
      n := |s|;
    }
  }

  lemma SqlTrimIsTrim(s: string)
    ensures IsTrim(s, SqlTrim(s))
  {
    var k := TrimLeftAt(s);
    var n := TrimRightAt(TrimLeft(s));
    assert SqlTrim(s) == s[k..][..n] == s[k..k + n];
    assert forall i :: k + n <= i < |s| ==> s[i] == s[k..][i - k];
    assert SqlTrim(s) != "" ==> SqlTrim(s)[0] == TrimLeft(s)[0];
    assert TrimAt(s, SqlTrim(s), k, k + n);
  }

  lemma OneTrim(s: string, t: string, u: string)
    requires IsTrim(s, t) && IsTrim(s, u)
    ensures t == u
  {
    var k: nat, n: nat :| TrimAt(s, t, k, n);
    var j: nat, m: nat :| TrimAt(s, u, j, m);
    if t != "" {
      assert t[0] == s[k] && t[|t| - 1] == s[n - 1];
    }
    if u != "" {
      assert u[0] == s[j] && u[|u| - 1] == s[m - 1];
    }
  }

  /** A unit that has no shelf is in the warehouse that is named, or, if none is, in none. */
  ghost predicate InWarehouse(legacy: Option<string>, warehouse: Option<string>) {
    if legacy == None || legacy == Some("") then warehouse == None || IsTrim(warehouse.value, "")
    else warehouse.Some? && exists t :: IsTrim(warehouse.value, t) && Text.Upper(t) == Normalize(legacy.value)
  }

  /** A unit this line may take. */
  ghost predicate AskedFor(item: MoveItem, i: nat, s: Serial) {
    && s.active && s.status in {InStock, Returned} && s.product == item.product
    && item.serial in {None, Some(i)}
    && s.lot == (if item.lot == Some("") then None else item.lot)
    && (match item.source
        case Some(shelf) => s.location == Some(shelf)
        case None => s.location == None && InWarehouse(item.legacy, s.warehouse))
  }

  lemma WarehouseInTerms(item: MoveItem, warehouse: Option<string>)
    ensures WarehouseMatches(item, warehouse) <==> InWarehouse(item.legacy, warehouse)
  {
    hide SqlTrim, IsTrim;
    if warehouse.Some? {
      SqlTrimIsTrim(warehouse.value);
      forall t | IsTrim(warehouse.value, t)
        ensures t == SqlTrim(warehouse.value)
      {
        OneTrim(warehouse.value, t, SqlTrim(warehouse.value));
      }
    }
  }

  lemma MatchesInTerms(item: MoveItem, i: nat, s: Serial)
    ensures Matches(item, i, s) <==> AskedFor(item, i, s)
  {
    hide WarehouseMatches, InWarehouse;
    WarehouseInTerms(item, s.warehouse);
  }

  // ----- What a line takes -----

  /** One unit need not make way for the other: by date, and at equal dates by time of creation. */
  ghost predicate GoesFirst(s: Serial, t: Serial) {
    FefoDates.NotLater(s.expiry, t.expiry) && (s.expiry == t.expiry ==> s.createdAt <= t.createdAt)
  }

  /** As many different units as the line asks for, none taken before, and none left behind that should go first. */
  ghost predicate LineTaken(serials: Serials, item: MoveItem, before: seq<nat>, taken: seq<nat>) {
    && Distinct(taken) && |taken| == item.quantity
    && (forall i <- taken :: i in serials && AskedFor(item, i, serials[i]) && i !in before)
    && (forall i, j :: i in taken && j in serials && AskedFor(item, j, serials[j]) && j !in before && j !in taken ==>
          GoesFirst(serials[i], serials[j]))
  }

  /** What the query leaves of a line's units, once those taken before are out of it. */
  ghost function LeftFor(serials: Serials, item: MoveItem, before: seq<nat>): (ids: set<nat>)
    ensures ids <= serials.Keys
  {
    Matching(serials, item) - Elements(before)
  }

  lemma LeftInTerms(serials: Serials, item: MoveItem, before: seq<nat>, i: nat)
    ensures i in LeftFor(serials, item, before) <==> i in serials && AskedFor(item, i, serials[i]) && i !in before
  {
    hide AskedFor, Matches;
    if i in serials {
      MatchesInTerms(item, i, serials[i]);
    }
  }

  ghost predicate FirstOf(serials: Serials, ids: set<nat>, n: int, taken: seq<nat>)
    requires ids <= serials.Keys
  {
    && Distinct(taken) && |taken| == n && (forall i <- taken :: i in ids)
    && forall i, j :: i in taken && j in ids && j !in taken ==> i in ids && GoesFirst(serials[i], serials[j])
  }

  lemma TakenAreFirst(serials: Serials, ids: set<nat>, n: nat)
    requires ids <= serials.Keys && n <= |Ordered(serials, ids)|
    ensures FirstOf(serials, ids, n, Ordered(serials, ids)[..n])
  {
    hide Ordered, GoesFirst, Elements;
    var left := Ordered(serials, ids);
    OrderedIsDistinct(serials, ids);
    assert forall i <- left[..n] :: i in left;
    forall i, j | i in left[..n] && j in ids && j !in left[..n]
      ensures GoesFirst(serials[i], serials[j])
    {
      TakenGoFirst(serials, ids, n, i, j);
    }
  }

  lemma FirstAreTaken(serials: Serials, item: MoveItem, before: seq<nat>)
    requires 0 <= item.quantity <= |Ordered(serials, LeftFor(serials, item, before))|
    ensures LineTaken(serials, item, before, Ordered(serials, LeftFor(serials, item, before))[..item.quantity])
  {
    hide Ordered, AskedFor, GoesFirst, LeftFor, Distinct;
    var ids := LeftFor(serials, item, before);
    TakenAreFirst(serials, ids, item.quantity);
    forall i
      ensures i in ids <==> i in serials && AskedFor(item, i, serials[i]) && i !in before
    {
      LeftInTerms(serials, item, before, i);
    }
  }

  lemma TakenGoFirst(serials: Serials, ids: set<nat>, n: nat, i: nat, j: nat)
    requires ids <= serials.Keys && n <= |Ordered(serials, ids)|
    requires i in Ordered(serials, ids)[..n] && j in ids && j !in Ordered(serials, ids)[..n]
    ensures i in serials && GoesFirst(serials[i], serials[j])
  {
    hide Ordered, FefoDates.NotLater;
    FefoDates.TakenBefore(serials, ids, n, i, j);
  }

  lemma {:induction false} EachLineTakes(serials: Serials, locations: map<nat, Location>, destination: nat,
                                         items: seq<MoveItem>, k: nat)
    requires Plan(serials, locations, destination, items).Some? && k < |items|
    ensures var lists := Plan(serials, locations, destination, items).value;
            |lists| == |items| && items[k].quantity >= 1 && items[k].source != Some(destination)
            && LineTaken(serials, items[k], Flatten(lists[..k]), lists[k])
    decreases |items|
  {
    hide Ordered, Matching, SameSource, Plan, Elements, Flatten, LineTaken;
    var n := |items| - 1;
    PlanStep(serials, locations, destination, items);
    var lists := Plan(serials, locations, destination, items).value;
    var earlier := Plan(serials, locations, destination, items[..n]).value;
    if k < n {
      EachLineTakes(serials, locations, destination, items[..n], k);
      assert items[..n][k] == items[k] && lists[..k] == earlier[..k];
    } else {
      assert lists[..n] == earlier;
      FirstAreTaken(serials, items[n], Flatten(earlier));
    }
  }

  // ----- The whole move -----

  /** What is moved is on the destination's shelf and in its warehouse; nothing else about any unit has changed. */
  ghost predicate OnlyPlaced(serials: Serials, after: Serials, moved: seq<nat>, shelf: nat, warehouse: string) {
    && after.Keys == serials.Keys
    && (forall i <- moved :: i in serials)
    && forall i <- serials ::
         after[i] ==
         if i in moved then serials[i].(location := Some(shelf), warehouse := Some(warehouse)) else serials[i]
  }

  /** One row for each moved unit, in order, whose status is as it was. */
  ghost predicate OnlyLogged(serials: Serials, ledger: seq<Txn>, after: seq<Txn>, moved: seq<nat>) {
    && |after| == |ledger| + |moved| && after[..|ledger|] == ledger
    && forall k :: 0 <= k < |moved| ==>
         moved[k] in serials
         && var status := serials[moved[k]].status; after[|ledger| + k] == Txn(RelocationTxn, moved[k], status, status)
  }

  /**
   A relocation that is carried out takes for each line, from what the earlier lines left, as many units as it asks
   for and in the order of their dates, no unit twice; it puts them at an active destination that is not their source,
   and logs each of them.
   */
  lemma MovesWhatIsAsked(st: Stock, locations: map<nat, Location>, destination: nat, items: seq<MoveItem>)
      returns (lists: seq<seq<nat>>)
    requires Relocate(st, locations, destination, items).Some?
    ensures destination in locations && locations[destination].active && items != [] && |lists| == |items|
    ensures forall k :: 0 <= k < |items| ==>
              items[k].quantity >= 1 && items[k].source != Some(destination)
              && LineTaken(st.serials, items[k], Flatten(lists[..k]), lists[k])
    ensures var m := Relocate(st, locations, destination, items).value;
            m.moved == Flatten(lists) && Distinct(m.moved)
            && OnlyPlaced(st.serials, m.serials, m.moved, destination, locations[destination].warehouse)
            && OnlyLogged(st.serials, st.ledger, m.ledger, m.moved)
  {
    hide Relocate, Plan, LineTaken, Distinct, Flatten;
    RelocateExactly(st, locations, destination, items);
    lists := Plan(st.serials, locations, destination, items).value;
    forall k | 0 <= k < |items|
      ensures |lists| == |items| && items[k].quantity >= 1 && items[k].source != Some(destination)
              && LineTaken(st.serials, items[k], Flatten(lists[..k]), lists[k])
    {
      EachLineTakes(st.serials, locations, destination, items, k);
    }
  }

  // ----- When a line is carried out -----

  ghost function Asked(serials: Serials, item: MoveItem): (ids: set<nat>)
    ensures ids <= serials.Keys
  {
    set i | i in serials && AskedFor(item, i, serials[i])
  }

  lemma AskedAreMatching(serials: Serials, item: MoveItem)
    ensures Asked(serials, item) == Matching(serials, item)
  {
    hide AskedFor, Matches;
    forall i | i in serials
      ensures i in Asked(serials, item) <==> i in Matching(serials, item)
    {
      MatchesInTerms(item, i, serials[i]);
    }
    assert forall i :: i in Asked(serials, item) <==> i in Matching(serials, item);
  }

  /** A line by itself that names a shelf or a warehouse. */
  ghost predicate NamesPlace(item: MoveItem) {
    item.source.Some? || (item.legacy.Some? && Normalize(item.legacy.value) != "")
  }

  lemma NamedNeverMixes(item: MoveItem)
    requires NamesPlace(item)
    ensures !MayMix(item)
  {
  }

  /**
   Such a line is carried out exactly when its destination is active and is not its source, it asks for one unit or
   more, for just one if it names that unit, and as many units as it asks for are there.
   */
  lemma NamedLineMovesExactly(st: Stock, locations: map<nat, Location>, destination: nat, item: MoveItem)
    requires NamesPlace(item) && OnFile(st.serials, locations)
    ensures Relocate(st, locations, destination, [item]).Some? <==>
              destination in locations && locations[destination].active && item.source != Some(destination)
              && 1 <= item.quantity <= |Asked(st.serials, item)| && (item.serial.Some? ==> item.quantity == 1)
  {
    hide Matching, Ordered, SameSource, Plan, Relocate, Outcome, MayMix, OnFile, Asked, NamesPlace;
    RelocateExactly(st, locations, destination, [item]);
    AskedAreMatching(st.serials, item);
    if destination in locations && locations[destination].active {
      if ItemOk(item, destination) {
        OneLinePlan(st.serials, locations, destination, item);
        NamedNeverMixes(item);
        if item.quantity <= |Asked(st.serials, item)| {
          NamedLineNotRefused(st, locations, destination, item);
        }
      } else {
        PlanStep(st.serials, locations, destination, [item]);
      }
    }
  }
}
