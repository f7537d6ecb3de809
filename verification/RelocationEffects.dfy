/** What a relocation keeps and changes (app/services/relocation.py): whose units move, and the counts. */
module RelocationEffects {
  import opened Options
  import opened StockTypes
  import opened Fefo
  import opened DraftBatches
  import opened Sequences
  import opened Relocation
  import EnvText
  import Text

  // ----- What each line takes -----

  /** Every line of a plan takes as many units as it asks for, all of them matching. */
  lemma {:induction false} PlanTakes(serials: Serials, locations: map<nat, Location>, destination: nat,
      items: seq<MoveItem>, k: nat)
    requires Plan(serials, locations, destination, items).Some? && k < |items|
    ensures var lists := Plan(serials, locations, destination, items).value;
            |lists| == |items| && ItemOk(items[k], destination) && |lists[k]| == items[k].quantity
            && forall i <- lists[k] :: i in Matching(serials, items[k])
    decreases |items|
  {
    hide Ordered, Matching, SameSource, ItemOk, Plan, Elements, Flatten;
    var n := |items| - 1;
    PlanStep(serials, locations, destination, items);
    var earlier := Plan(serials, locations, destination, items[..n]).value;
    if k < n {
      PlanTakes(serials, locations, destination, items[..n], k);
      assert items[..n][k] == items[k];
    } else {
      var taken := Elements(Flatten(earlier));
      var left := Ordered(serials, Matching(serials, items[n]) - taken);
      assert forall i <- left[..items[n].quantity] :: i in left;
    }
  }

  // ----- Conservation -----

  /** Where a unit is: on a shelf, or unplaced in a legacy warehouse, whose name is blank for none. */
  datatype Place = Shelf(location: nat) | Unplaced(warehouse: string)

  function PlaceOf(s: Serial): Place {
    if s.location.Some? then Shelf(s.location.value)
    else Unplaced(if Given(s.warehouse) then Text.Upper(SqlTrim(s.warehouse.value)) else "")
  }

  /** The place a line takes its units from. */
  function SourceOf(item: MoveItem): Place {
    if item.source.Some? then Shelf(item.source.value)
    else Unplaced(if Given(item.legacy) then Normalize(item.legacy.value) else "")
  }

  /** The serials of a product at a place. */
  ghost function Held(serials: Serials, product: nat, place: Place): set<nat> {
    set i | i in serials && serials[i].product == product && PlaceOf(serials[i]) == place
  }

  /** The units a request asks for, of a product; from one place, or from anywhere. */
  ghost function Requested(items: seq<MoveItem>, product: nat): int {
    if items == [] then 0
    else
      var item := items[|items| - 1];
      Requested(items[..|items| - 1], product) + if item.product == product then item.quantity else 0
  }

  ghost function RequestedFrom(items: seq<MoveItem>, product: nat, source: Place): int {
    if items == [] then 0
    else
      var item := items[|items| - 1];
      RequestedFrom(items[..|items| - 1], product, source)
      + if item.product == product && SourceOf(item) == source then item.quantity else 0
  }

  lemma MatchingPlace(serials: Serials, item: MoveItem, i: nat)
    requires i in Matching(serials, item)
    ensures i in serials && serials[i].product == item.product && serials[i].location == item.source
    ensures PlaceOf(serials[i]) == SourceOf(item)
  {
    hide Movable, Normalize;
  }

  /** Moving some units of one product from one place changes two counts, and only for that product. */
  lemma HeldAfter(serials: Serials, moved: seq<nat>, picked: seq<nat>, item: MoveItem, destination: nat,
                  warehouse: string, product: nat, place: Place)
    requires forall i <- picked ::
      i in serials && i !in moved && serials[i].product == item.product && PlaceOf(serials[i]) == SourceOf(item)
    requires item.source != Some(destination)
    ensures var before, after := Held(Placed(serials, moved, destination, warehouse), product, place),
                                 Held(Placed(serials, moved + picked, destination, warehouse), product, place);
            if product != item.product then after == before
            else if place == Shelf(destination) then after == before + Elements(picked) && before !! Elements(picked)
            else if place == SourceOf(item) then after == before - Elements(picked) && Elements(picked) <= before
            else after == before
  {
    hide SqlTrim, Normalize, Given;
    var one := Placed(serials, moved, destination, warehouse);
    var two := Placed(serials, moved + picked, destination, warehouse);
    forall i | i in serials
      ensures two[i] == if i in picked then PlaceAt(serials[i], destination, warehouse) else one[i]
      ensures i in picked ==> one[i] == serials[i]
    {
      assert i in moved + picked <==> i in moved || i in picked;
      if i in moved && i in picked {
        assert false;
      }
    }
  }

  /** How the two counts move, for one more line. */
  lemma CountAfter(serials: Serials, moved: seq<nat>, picked: seq<nat>, item: MoveItem, destination: nat,
                   warehouse: string, product: nat, place: Place)
    requires forall i <- picked :: i in Matching(serials, item) && i !in moved
    requires Distinct(picked) && item.source != Some(destination)
    ensures |Held(Placed(serials, moved + picked, destination, warehouse), product, place)|
         == |Held(Placed(serials, moved, destination, warehouse), product, place)|
            + (if product != item.product then 0
               else if place == Shelf(destination) then |picked|
               else if place == SourceOf(item) then -|picked|
               else 0)
  {
    hide Held, Placed, Matching, PlaceOf, SourceOf;
    forall i | i in picked
      ensures i in serials && serials[i].product == item.product && PlaceOf(serials[i]) == SourceOf(item)
    {
      MatchingPlace(serials, item, i);
    }
    HeldAfter(serials, moved, picked, item, destination, warehouse, product, place);
    DistinctSize(picked);
  }

  /** The last line of a plan: what it takes is new, distinct and matching. */
  lemma LastLine(serials: Serials, locations: map<nat, Location>, destination: nat, items: seq<MoveItem>)
    requires items != [] && Plan(serials, locations, destination, items).Some?
    ensures var n := |items| - 1;
            var earlier := Plan(serials, locations, destination, items[..n]);
            var lists := Plan(serials, locations, destination, items).value;
            earlier.Some? && |lists| == |items| && Flatten(lists) == Flatten(earlier.value) + lists[n]
            && |lists[n]| == items[n].quantity && items[n].source != Some(destination) && Distinct(lists[n])
            && forall i <- lists[n] :: i in Matching(serials, items[n]) && i !in Flatten(earlier.value)
  {
    hide Ordered, Matching, SameSource;
    var n := |items| - 1;
    PlanStep(serials, locations, destination, items);
    var earlier := Plan(serials, locations, destination, items[..n]).value;
    var ids := Matching(serials, items[n]) - Elements(Flatten(earlier));
    var left := Ordered(serials, ids);
    OrderedIsDistinct(serials, ids);
    assert forall i <- left[..items[n].quantity] :: i in left;
  }

  /**
   Nothing is lost or made: the destination gains, of each product, exactly the units asked for;
   every other place loses exactly the units asked for from it.
   */
  lemma {:induction false} RelocationConserves(serials: Serials, locations: map<nat, Location>, destination: nat,
                                               items: seq<MoveItem>, product: nat, place: Place)
    requires destination in locations && Plan(serials, locations, destination, items).Some?
    ensures var after := Placed(serials, Flatten(Plan(serials, locations, destination, items).value), destination,
                                locations[destination].warehouse);
            |Held(after, product, place)| == |Held(serials, product, place)|
            + if place == Shelf(destination) then Requested(items, product) else -RequestedFrom(items, product, place)
    decreases |items|
  {
    hide Held, Plan, Matching, SqlTrim, Normalize;
    var warehouse := locations[destination].warehouse;
    if items == [] {
      NoLines(serials, locations, destination, warehouse);
    } else {
      var n := |items| - 1;
      LastLine(serials, locations, destination, items);
      RelocationConserves(serials, locations, destination, items[..n], product, place);
      var lists := Plan(serials, locations, destination, items).value;
      CountAfter(serials, Flatten(Plan(serials, locations, destination, items[..n]).value), lists[n], items[n],
                 destination, warehouse, product, place);
    }
  }

  lemma NoLines(serials: Serials, locations: map<nat, Location>, destination: nat, warehouse: string)
    ensures Plan(serials, locations, destination, []) == Some([])
    ensures Placed(serials, Flatten<nat>([]), destination, warehouse) == serials
  {
  }

  // ----- The whole call -----

  /**
   `relocate_stock` either changes nothing or carries out its plan: line by line the first matching
   units in FEFO order that earlier lines left, no unit twice, every one of them logged without a
   change of status.
   */
  lemma RelocateExactly(st: Stock, locations: map<nat, Location>, destination: nat, items: seq<MoveItem>)
    ensures var plan := Plan(st.serials, locations, destination, items);
            Relocate(st, locations, destination, items) ==
            if destination in locations && locations[destination].active && items != [] && plan.Some?
            then Some(Outcome(st.serials, st.ledger, destination, locations[destination].warehouse,
                Flatten(plan.value)))
            else None
    ensures var plan := Plan(st.serials, locations, destination, items);
            destination in locations && plan.Some? ==> Distinct(Flatten(plan.value))
  {
    hide Plan, MoveAll, Outcome;
    if destination in locations {
      MoveAllIsPlan(st.serials, st.ledger, locations, destination, items);
    }
  }

  // ----- When the source texts differ -----

  /** From a known location, the units of a line always share their source text. */
  lemma KnownLocationNeverMixes(locations: map<nat, Location>, serials: Serials, item: MoveItem, picked: seq<nat>)
    requires item.source.Some? && item.source.value in locations
    requires forall i <- picked :: i in Matching(serials, item)
    ensures (forall i <- picked :: i in serials) && SameSource(locations, serials, picked)
  {
    hide Matching;
    forall i | i in picked
      ensures i in serials && SourceText(locations, serials[i]) == locations[item.source.value].path
    {
      MatchingPlace(serials, item, i);
    }
    if picked != [] {
      assert picked[0] in picked;
    }
  }

  lemma BlankTexts(locations: map<nat, Location>, a: Serial, b: Serial)
    requires a.location.None? && b.location.None? && a.warehouse.None? && b.warehouse == Some(" ")
    ensures SourceText(locations, a) != SourceText(locations, b)
  {
    assert EnvText.StripLeft(" ") == "";
    assert SourceText(locations, b) == "";
  }

  lemma BlankWarehouses(a: Serial, b: Serial)
    requires a.location.None? && b.location.None? && a.warehouse.None? && b.warehouse == Some(" ")
    requires Movable(a) && Movable(b) && a.product == b.product && a.lot.None? && b.lot.None?
    ensures Matching(map[1 := a, 2 := b], MoveItem(a.product, 2, None, None, None, None)) == {1, 2}
  {
    hide Movable;
    assert TrimLeft(" ") == "";
    assert SqlTrim(" ") == "";
  }

  /**
   Unplaced stock does mix: a blank warehouse and a missing one match the same line, but read as
   different places, so asking for both units is refused though they are there.
   */
  lemma BlankWarehousesMix(locations: map<nat, Location>, destination: nat, a: Serial, b: Serial)
    requires a.location.None? && b.location.None? && a.warehouse.None? && b.warehouse == Some(" ")
    requires Movable(a) && Movable(b) && a.product == b.product && a.lot.None? && b.lot.None?
    ensures var item, serials := MoveItem(a.product, 2, None, None, None, None), map[1 := a, 2 := b];
            |Matching(serials, item)| == item.quantity
            && Plan(serials, locations, destination, [item]).None?
  {
    hide Movable, Matching, SourceText, Ordered, Plan, SameSource, Elements;
    var serials, item := map[1 := a, 2 := b], MoveItem(a.product, 2, None, None, None, None);
    BlankWarehouses(a, b);
    BlankTexts(locations, a, b);
    var left := Ordered(serials, {1, 2});
    assert 1 in left && 2 in left;
    assert serials[1] == a && serials[2] == b;
    TwoTexts(locations, serials, left, 1, 2);
    assert left[..2] == left;
    MixedLineRefused(serials, locations, destination, item);
  }

  lemma TwoTexts(locations: map<nat, Location>, serials: Serials, picked: seq<nat>, i: nat, j: nat)
    requires (forall k <- picked :: k in serials) && i in picked && j in picked
    requires SourceText(locations, serials[i]) != SourceText(locations, serials[j])
    ensures !SameSource(locations, serials, picked)
  {
    hide SourceText;
  }

  /** A single line is carried out exactly when there are enough units and the first of them share their source text. */
  lemma OneLinePlan(serials: Serials, locations: map<nat, Location>, destination: nat, item: MoveItem)
    requires ItemOk(item, destination)
    ensures var left := Ordered(serials, Matching(serials, item));
            Plan(serials, locations, destination, [item]).Some? <==>
            item.quantity <= |left| && SameSource(locations, serials, left[..item.quantity])
  {
    hide Matching, Ordered, SameSource, Plan;
    NoLines(serials, locations, destination, "");
    PlanStep(serials, locations, destination, [item]);
    assert [item][..0] == [];
    assert Elements(Flatten<nat>([])) == {};
    assert Matching(serials, item) - {} == Matching(serials, item);
  }

  /** So is it refused, available as its units are, if they read as different places. */
  lemma MixedLineRefused(serials: Serials, locations: map<nat, Location>, destination: nat, item: MoveItem)
    requires 0 <= item.quantity <= |Ordered(serials, Matching(serials, item))|
    requires !SameSource(locations, serials, Ordered(serials, Matching(serials, item))[..item.quantity])
    ensures Plan(serials, locations, destination, [item]).None?
  {
    hide Matching, Ordered, SameSource, Plan;
    if ItemOk(item, destination) {
      OneLinePlan(serials, locations, destination, item);
    } else {
      PlanStep(serials, locations, destination, [item]);
    }
  }

  // ----- When a line may mix sources -----

  lemma {:induction false} TrimLeftParts(s: string)
    ensures TrimLeft(s) == "" || TrimLeft(s)[0] != ' '
    ensures EnvText.StripLeft(TrimLeft(s)) == EnvText.StripLeft(s)
  {
    if s != "" && s[0] == ' ' {
      TrimLeftParts(s[1..]);
    }
  }

  lemma {:induction false} TrimRightParts(s: string)
    ensures TrimRight(s) <= s
    ensures EnvText.StripRight(TrimRight(s)) == EnvText.StripRight(s)
  {
    if s != "" && s[|s| - 1] == ' ' {
      TrimRightParts(s[..|s| - 1]);
    }
  }

  /** Where only plain spaces surround a name, SQL's trim and Python's strip agree. */
  lemma TrimIsStrip(s: string)
    requires SqlTrim(s) != "" && EnvText.Stripped(SqlTrim(s))
    ensures EnvText.Strip(s) == SqlTrim(s)
  {
    TrimLeftParts(s);
    TrimRightParts(TrimLeft(s));
    EnvText.StripIdentity(SqlTrim(s));
  }

  lemma FoldKeepsSpace(c: char)
    ensures EnvText.IsSpace(Text.FoldCase(c)) == EnvText.IsSpace(c)
  {
  }

  lemma UpperKeepsStripped(s: string)
    ensures EnvText.Stripped(Text.Upper(s)) == EnvText.Stripped(s)
  {
    if s != "" {
      FoldKeepsSpace(s[0]);
      FoldKeepsSpace(s[|s| - 1]);
    }
  }

  /** A warehouse that matches a name reads as that name. */
  lemma NamedWarehouseText(name: string, warehouse: string)
    requires Normalize(name) != "" && Text.Upper(SqlTrim(warehouse)) == Normalize(name)
    ensures warehouse != "" && Normalize(warehouse) == Normalize(name)
  {
    hide SqlTrim, EnvText.Strip, EnvText.Stripped, EnvText.IsSpace;
    EnvText.StripIsStripped(name);
    UpperKeepsStripped(EnvText.Strip(name));
    UpperKeepsStripped(SqlTrim(warehouse));
    TrimIsStrip(warehouse);
    BlankTrim();
  }

  lemma BlankTrim()
    ensures SqlTrim("") == ""
  {
  }

  /** What a caller can see before the call: several units, from no location, and from no named warehouse. */
  predicate MayMix(item: MoveItem) {
    item.quantity >= 2 && item.source.None? && (!Given(item.legacy) || Normalize(item.legacy.value) == "")
  }

  /** Every unit on a shelf is on a shelf that exists: a foreign key. */
  ghost predicate OnFile(serials: Serials, locations: map<nat, Location>) {
    forall i :: i in serials && serials[i].location.Some? ==> serials[i].location.value in locations
  }

  lemma SharedText(locations: map<nat, Location>, serials: Serials, item: MoveItem, i: nat, text: string)
    requires i in Matching(serials, item) && item.source.None? && Given(item.legacy)
         && Normalize(item.legacy.value) != ""
    requires text == Normalize(item.legacy.value)
    ensures SourceText(locations, serials[i]) == text
  {
    hide SqlTrim, Movable, Normalize;
    NamedWarehouseText(item.legacy.value, serials[i].warehouse.value);
  }

  /** The units of any other line share their source text. */
  lemma NamedSourceNeverMixes(locations: map<nat, Location>, serials: Serials, item: MoveItem, picked: seq<nat>)
    requires !MayMix(item) && OnFile(serials, locations) && |picked| == item.quantity
    requires forall i <- picked :: i in Matching(serials, item)
    ensures (forall i <- picked :: i in serials) && SameSource(locations, serials, picked)
  {
    hide Matching, SourceText, Normalize;
    if picked != [] {
      assert picked[0] in picked;
      MatchingPlace(serials, item, picked[0]);
      if item.source.Some? {
        KnownLocationNeverMixes(locations, serials, item, picked);
      } else if item.quantity < 2 {
        assert forall i <- picked :: i == picked[0];
      } else {
        forall i | i in picked
          ensures i in serials && SourceText(locations, serials[i]) == Normalize(item.legacy.value)
        {
          MatchingPlace(serials, item, i);
          SharedText(locations, serials, item, i, Normalize(item.legacy.value));
        }
      }
    }
  }

  /** The call is refused although enough units match the line. */
  ghost predicate RefusedInStock(st: Stock, locations: map<nat, Location>, destination: nat, item: MoveItem) {
    OnFile(st.serials, locations)
    && item.quantity <= |Matching(st.serials, item)|
    && Relocate(st, locations, destination, [item]).None?
  }

  lemma NamedLineNotRefused(st: Stock, locations: map<nat, Location>, destination: nat, item: MoveItem)
    requires destination in locations && locations[destination].active && ItemOk(item, destination)
    requires !MayMix(item)
    ensures !RefusedInStock(st, locations, destination, item)
  {
    hide Matching, Ordered, SameSource, Plan, Relocate, Outcome, MayMix, OnFile;
    if OnFile(st.serials, locations) && item.quantity <= |Matching(st.serials, item)| {
      var left := Ordered(st.serials, Matching(st.serials, item));
      assert forall i <- left[..item.quantity] :: i in left;
      NamedSourceNeverMixes(locations, st.serials, item, left[..item.quantity]);
      OneLinePlan(st.serials, locations, destination, item);
      RelocateExactly(st, locations, destination, [item]);
    }
  }

  // ----- Stock on which such a line is refused -----

  /** A unit that an unnamed line matches; its warehouse is blank. */
  function BlankUnit(item: MoveItem, i: nat, warehouse: string): Serial {
    Serial(seq(i, _ => 'A'), item.product, InStock, InStock, true,
           if Given(item.lot) then item.lot else None, None, None, 0, None,
           Some(warehouse), None)
  }

  /** Units 0 to `n - 1`, the first with an empty warehouse and the others with a space. */
  function BlankUnits(item: MoveItem, n: nat): Serials {
    if n == 0 then map[] else BlankUnits(item, n - 1)[n - 1 := BlankAt(item, n - 1)]
  }

  function BlankAt(item: MoveItem, i: nat): Serial {
    BlankUnit(item, i, if i == 0 then "" else " ")
  }

  lemma {:induction false} BlankUnitsAre(item: MoveItem, n: nat)
    ensures |BlankUnits(item, n).Keys| == n
    ensures forall i: nat :: i in BlankUnits(item, n) <==> i < n
    ensures forall i :: i in BlankUnits(item, n) ==> BlankUnits(item, n)[i] == BlankAt(item, i)
  {
    hide BlankAt, BlankUnits;
    BlankUnitsStep(item, n);
    if n > 0 {
      BlankUnitsAre(item, n - 1);
      assert BlankUnits(item, n).Keys == BlankUnits(item, n - 1).Keys + {n - 1};
    }
  }

  lemma BlankUnitsStep(item: MoveItem, n: nat)
    ensures BlankUnits(item, n) == if n == 0 then map[] else BlankUnits(item, n - 1)[n - 1 := BlankAt(item, n - 1)]
  {
    hide BlankAt;
  }

  function BlankStock(item: MoveItem): Stock
    requires item.quantity >= 0
  {
    Stock(BlankUnits(item, item.quantity), item.quantity, map[], [])
  }

  lemma BlankIsBlank()
    ensures Normalize(" ") == "" && Text.Upper(SqlTrim(" ")) == "" && Text.Upper(SqlTrim("")) == ""
    ensures SqlTrim(" ") == "" && SqlTrim("") == ""
  {
    assert EnvText.StripLeft(" ") == "";
    assert TrimLeft(" ") == "";
    assert Text.Upper("") == "";
  }

  lemma BlankUnitMatches(item: MoveItem, i: nat, warehouse: string)
    requires MayMix(item) && item.serial.None? && (warehouse == "" || warehouse == " ")
    ensures Matches(item, i, BlankUnit(item, i, warehouse))
  {
    hide Normalize, SqlTrim;
    BlankIsBlank();
  }

  lemma AllBlankMatch(item: MoveItem)
    requires item.quantity >= 0 && MayMix(item) && item.serial.None?
    ensures Matching(BlankStock(item).serials, item) == BlankStock(item).serials.Keys
  {
    hide Matches, BlankUnit, MayMix, BlankUnits;
    BlankUnitsAre(item, item.quantity);
    var serials := BlankStock(item).serials;
    forall i | i in serials
      ensures Matches(item, i, serials[i])
    {
      BlankUnitMatches(item, i, if i == 0 then "" else " ");
    }
  }

  lemma BlankUnitTexts(locations: map<nat, Location>, item: MoveItem, i: nat)
    ensures SourceText(locations, BlankUnit(item, i, "")) == "UNASSIGNED"
    ensures SourceText(locations, BlankUnit(item, i, " ")) == ""
  {
    hide Normalize;
    BlankIsBlank();
  }

  lemma NoneOnShelves(locations: map<nat, Location>, item: MoveItem)
    requires item.quantity >= 0
    ensures OnFile(BlankStock(item).serials, locations)
  {
    hide BlankUnits;
    BlankUnitsAre(item, item.quantity);
  }

  lemma UnnamedLineRefused(locations: map<nat, Location>, destination: nat, item: MoveItem)
    requires ItemOk(item, destination) && MayMix(item)
    ensures item.quantity >= 0 && RefusedInStock(BlankStock(item), locations, destination, item)
  {
    hide Matching, Ordered, SameSource, Plan, Relocate, Outcome, SourceText, MayMix, BlankUnit, BlankUnits;
    assert item.quantity >= 2 && item.serial.None? by { SeveralUnscanned(item, destination); }
    var st := BlankStock(item);
    var left := Ordered(st.serials, Matching(st.serials, item));
    AllBlankMatch(item);
    BlankUnitsAre(item, item.quantity);
    assert left[..item.quantity] == left && 0 in left && 1 in left;
    BlankUnitTexts(locations, item, 0);
    BlankUnitTexts(locations, item, 1);
    TwoTexts(locations, st.serials, left, 0, 1);
    NoneOnShelves(locations, item);
    MixedLineRefused(st.serials, locations, destination, item);
    RelocateExactly(st, locations, destination, [item]);
  }

  lemma SeveralUnscanned(item: MoveItem, destination: nat)
    requires ItemOk(item, destination) && MayMix(item)
    ensures item.quantity >= 2 && item.serial.None?
  {
  }

  /**
   A well-formed line can be refused although its units are there exactly when it asks for two units
   or more and names neither a location nor a warehouse.
   */
  lemma MixesExactly(locations: map<nat, Location>, destination: nat, item: MoveItem)
    requires destination in locations && locations[destination].active && ItemOk(item, destination)
    ensures (exists st :: RefusedInStock(st, locations, destination, item)) <==> MayMix(item)
  {
    hide RefusedInStock, MayMix, ItemOk;
    if MayMix(item) {
      UnnamedLineRefused(locations, destination, item);
    } else {
      forall st
        ensures !RefusedInStock(st, locations, destination, item)
      {
        NamedLineNotRefused(st, locations, destination, item);
      }
    }
  }
}
