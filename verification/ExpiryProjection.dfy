/**
 The expiry projection of the stock-movement report (app/services/stock_movement.py): how many
 units are bound to expire unsold at the current rate of sale. The rate is the exact fraction
 `sold / period` (units sold over the analysis window, in days).

 The loop keeps a running maximum. Its meaning is an optimum: no plan that respects the rate
 leaves fewer units unsold, and the plan that sells the earliest expiry first reaches it.
 */
module ExpiryProjection {
  import opened Options

  /** The units of one expiry date, and how many selling days are left for them. */
  datatype Lot = Lot(days: nat, quantity: nat)

  /** `floor(daily_sales * days)`. */
  function Capacity(sold: nat, period: nat, days: nat): nat
    requires period > 0
  {
    sold * days / period
  }

  /** As many whole units as the rate allows. */
  lemma CapacityIs(sold: nat, period: nat, days: nat, n: nat)
    requires period > 0
    ensures n <= Capacity(sold, period, days) <==> n * period <= sold * days
  {
    var c := Capacity(sold, period, days);
    assert sold * days == c * period + sold * days % period;
    if n <= c {
      TimesMonotone(n, c, period);
    } else {
      TimesMonotone(c + 1, n, period);
      assert (c + 1) * period == c * period + period;
    }
  }

  lemma TimesMonotone(a: nat, b: nat, factor: nat)
    requires a <= b
    ensures a * factor <= b * factor
  {
  }

  lemma CapacityMonotone(sold: nat, period: nat, d: nat, e: nat)
    requires period > 0 && d <= e
    ensures Capacity(sold, period, d) <= Capacity(sold, period, e)
  {
    assert sold * d <= sold * e;
    DivMonotone(sold * d, sold * e, period);
  }

  lemma CancelFactor(x: int, y: int, factor: nat)
    requires x * factor < y * factor
    ensures x < y
  {
    assert (y - x) * factor == y * factor - x * factor;
  }

  lemma DivMonotone(a: nat, b: nat, period: nat)
    requires period > 0 && a <= b
    ensures a / period <= b / period
  {
    var p, q := a / period, b / period;
    assert a == p * period + a % period;
    assert b == q * period + b % period;
    assert (q + 1) * period == q * period + period;
    CancelFactor(p, q + 1, period);
  }

  function Total(lots: seq<Lot>): nat {
    if lots == [] then 0 else Total(lots[..|lots| - 1]) + lots[|lots| - 1].quantity
  }

  ghost predicate SortedLots(lots: seq<Lot>) {
    forall i, j :: 0 <= i < j < |lots| ==> lots[i].days <= lots[j].days
  }

  /** The greatest excess of the units expiring by some date over what can be sold by then. */
  function PeakShortfall(lots: seq<Lot>, sold: nat, period: nat): nat
    requires period > 0
  {
    if lots == [] then 0
    else
      var before := PeakShortfall(lots[..|lots| - 1], sold, period);
      var excess := Total(lots) - Capacity(sold, period, lots[|lots| - 1].days);
      if excess > before then excess else before
  }

  // ----- Sorting the expiry dates -----

  lemma Element(s: set<int>) returns (x: int)
    requires s != {}
    ensures x in s
  {
    assert (forall y :: y !in s) ==> s == {};
    x :| x in s;
  }

  ghost predicate IsMin(s: set<int>, m: int) {
    m in s && forall x :: x in s ==> m <= x
  }

  lemma MinWith(s: set<int>, x: int, m: int)
    requires x in s && IsMin(s - {x}, m)
    ensures IsMin(s, if m <= x then m else x)
  {
    assert forall y :: y in s ==> y == x || y in s - {x};
  }

  lemma MinExists(s: set<int>)
    requires s != {}
    ensures exists m :: IsMin(s, m)
    decreases |s|
  {
    hide IsMin;
    var x := Element(s);
    if s == {x} {
      assert IsMin({x}, x) by { MinOfOne(x); }
    } else {
      MinExists(s - {x});
      var m :| IsMin(s - {x}, m);
      MinWith(s, x, m);
    }
  }

  lemma MinOfOne(x: int)
    ensures IsMin({x}, x)
  {
  }

  function Min(s: set<int>): (m: int)
    requires s != {}
    ensures m in s && forall x :: x in s ==> m <= x
  {
    MinExists(s);
    var m :| m in s && forall x <- s :: m <= x;
    m
  }

  function Sorted(s: set<int>): (r: seq<int>)
    ensures forall x :: x in r <==> x in s
    ensures forall i, j :: 0 <= i < j < |r| ==> r[i] < r[j]
    decreases |s|
  {
    if s == {} then [] else [Min(s)] + Sorted(s - {Min(s)})
  }

  lemma SortedEmpty()
    ensures Sorted({}) == []
  {
  }

  function LotsOf(dates: seq<int>, quantities: map<int, nat>, asOf: int): seq<Lot>
    requires forall d <- dates :: d in quantities
  {
    seq(|dates|, i requires 0 <= i < |dates| =>
      Lot(if dates[i] > asOf then dates[i] - asOf else 0, quantities[dates[i]]))
  }

  /** The lots of a stock group in order of expiry; stock already expired has no days left. */
  function Lots(quantities: map<int, nat>, asOf: int): (lots: seq<Lot>)
    ensures SortedLots(lots)
  {
    LotsOf(Sorted(quantities.Keys), quantities, asOf)
  }

  // ----- The projection -----

  datatype Risk = NotApplicable | High | Watch | Safe

  datatype Projection = Projection(risk: Risk, unsold: nat, nearest: Option<int>)

  /** Clearing `stock` units takes at least four fifths of the days to the nearest expiry. */
  predicate SellsTooSlowly(stock: nat, nearestDays: int, sold: nat, period: nat) {
    sold > 0 && nearestDays > 0 && 10 * stock * period >= 8 * nearestDays * sold
  }

  /** Days to sell the stock, at the daily rate of sale. */
  ghost function DaysToSell(stock: nat, sold: nat, period: nat): real
    requires sold > 0 && period > 0
  {
    stock as real / (sold as real / period as real)
  }

  lemma SlowExactly(stock: nat, nearestDays: int, sold: nat, period: nat)
    requires period > 0
    ensures SellsTooSlowly(stock, nearestDays, sold, period) <==>
            sold > 0 && nearestDays > 0 && DaysToSell(stock, sold, period) >= nearestDays as real * 0.8
  {
    if sold > 0 {
      QuotientAtLeast(stock as real, sold as real, period as real, nearestDays as real * 0.8);
      RealProduct(stock, period);
      RealProduct(nearestDays, sold);
      FactorOut(nearestDays as real, 0.8, sold as real);
      TimesTen(stock, period);
      TimesEight(nearestDays, sold);
    }
  }

  lemma RealProduct(x: int, y: int)
    ensures (x * y) as real == x as real * y as real
  {
  }

  lemma FactorOut(x: real, factor: real, y: real)
    ensures x * factor * y == factor * (x * y)
  {
  }

  lemma TimesTen(x: int, y: int)
    ensures 10 * x * y == 10 * (x * y)
  {
  }

  lemma TimesEight(x: int, y: int)
    ensures 8 * x * y == 8 * (x * y)
  {
  }

  lemma QuotientAtLeast(n: real, s: real, p: real, bound: real)
    requires s > 0.0 && p > 0.0
    ensures n / (s / p) >= bound <==> n * p >= bound * s
  {
    var rate := s / p;
    assert rate * p == s && rate > 0.0;
    var q := n / rate;
    assert q * rate == n;
    assert q * s == n * p;
    if q >= bound {
      assert (q - bound) * s >= 0.0;
    } else {
      assert (bound - q) * s > 0.0;
    }
  }

  lemma NothingAtRisk(sold: nat, period: nat)
    requires period > 0
    ensures Total([]) == PeakShortfall([], sold, period) == 0
  {
  }

  lemma PrefixStep(lots: seq<Lot>, i: nat, sold: nat, period: nat)
    requires period > 0 && i < |lots|
    ensures Total(lots[..i + 1]) == Total(lots[..i]) + lots[i].quantity
    ensures var before := PeakShortfall(lots[..i], sold, period);
      var excess := Total(lots[..i + 1]) - Capacity(sold, period, lots[i].days);
      PeakShortfall(lots[..i + 1], sold, period) == if excess > before then excess else before
  {
    assert lots[..i + 1][..i] == lots[..i];
  }

  // ----- What is projected, in terms of the dates -----

  /** The units that expire on date `d` or before. */
  ghost function DueBy(dates: seq<int>, quantities: map<int, nat>, d: int): nat
    requires forall e <- dates :: e in quantities
  {
    if dates == [] then 0
    else
      var last := dates[|dates| - 1];
      DueBy(dates[..|dates| - 1], quantities, d) + if last <= d then quantities[last] else 0
  }

  ghost function DueUnits(quantities: map<int, nat>, d: int): nat {
    DueBy(Sorted(quantities.Keys), quantities, d)
  }

  /** `n` units can be sold in so many days at the rate. */
  ghost predicate CanSell(n: int, days: int, sold: nat, period: nat) {
    n <= 0 || (days > 0 && n * period <= sold * days)
  }

  /** `unsold` is the least number that must be left over for every date to be met. */
  ghost predicate LeastUnsold(quantities: map<int, nat>, sold: nat, period: nat, asOf: int, unsold: nat) {
    (forall d :: d in quantities ==> CanSell(DueUnits(quantities, d) - unsold, d - asOf, sold, period))
    && (unsold > 0 ==>
          exists d :: d in quantities && !CanSell(DueUnits(quantities, d) - unsold + 1, d - asOf, sold, period))
  }

  /** The excess at lot `k` over what can be sold by then. */
  ghost function Excess(lots: seq<Lot>, k: nat, sold: nat, period: nat): int
    requires period > 0 && k < |lots|
  {
    Total(lots[..k + 1]) - Capacity(sold, period, lots[k].days)
  }

  /** The running maximum is an upper bound of the excesses, and one of them unless it is zero. */
  lemma {:induction false} PeakIsGreatest(lots: seq<Lot>, sold: nat, period: nat)
    requires period > 0
    ensures forall k :: 0 <= k < |lots| ==> Excess(lots, k, sold, period) <= PeakShortfall(lots, sold, period)
    ensures PeakShortfall(lots, sold, period) > 0 ==>
              exists k :: 0 <= k < |lots| && Excess(lots, k, sold, period) == PeakShortfall(lots, sold, period)
    decreases |lots|
  {
    hide Capacity, Total;
    if lots != [] {
      var init, n := lots[..|lots| - 1], |lots| - 1;
      PeakIsGreatest(init, sold, period);
      forall k | 0 <= k < n
        ensures Excess(lots, k, sold, period) == Excess(init, k, sold, period)
      {
        assert init[..k + 1] == lots[..k + 1];
      }
      assert lots[..n + 1] == lots;
      assert Excess(lots, n, sold, period) <= PeakShortfall(lots, sold, period);
      if PeakShortfall(lots, sold, period) > 0 && Excess(lots, n, sold, period) != PeakShortfall(lots, sold, period) {
        var k :| 0 <= k < n && Excess(init, k, sold, period) == PeakShortfall(init, sold, period);
        assert Excess(lots, k, sold, period) == PeakShortfall(lots, sold, period);
      }
    }
  }

  ghost predicate Known(dates: seq<int>, quantities: map<int, nat>) {
    forall x <- dates :: x in quantities
  }

  lemma {:induction false} AllDue(dates: seq<int>, quantities: map<int, nat>, asOf: int, d: int)
    requires Known(dates, quantities) && forall i :: 0 <= i < |dates| ==> dates[i] <= d
    ensures Total(LotsOf(dates, quantities, asOf)) == DueBy(dates, quantities, d)
    decreases |dates|
  {
    var lots := LotsOf(dates, quantities, asOf);
    if dates != [] {
      var init := dates[..|dates| - 1];
      assert LotsOf(init, quantities, asOf) == lots[..|lots| - 1];
      AllDue(init, quantities, asOf, d);
    }
  }

  lemma {:induction false} LaterNotDue(dates: seq<int>, quantities: map<int, nat>, d: int, k: nat)
    requires Known(dates, quantities) && k <= |dates| && forall i :: k <= i < |dates| ==> dates[i] > d
    ensures Known(dates[..k], quantities) && DueBy(dates, quantities, d) == DueBy(dates[..k], quantities, d)
    decreases |dates|
  {
    if k == |dates| {
      assert dates[..k] == dates;
    } else {
      var init := dates[..|dates| - 1];
      LaterNotDue(init, quantities, d, k);
      assert init[..k] == dates[..k];
    }
  }

  /** The first lots are the units due by the last of their dates. */
  lemma TotalIsDue(dates: seq<int>, quantities: map<int, nat>, asOf: int, k: nat)
    requires k < |dates| && Known(dates, quantities)
    requires forall i, j :: 0 <= i < j < |dates| ==> dates[i] < dates[j]
    ensures Total(LotsOf(dates, quantities, asOf)[..k + 1]) == DueBy(dates, quantities, dates[k])
  {
    hide Total, DueBy;
    LaterNotDue(dates, quantities, dates[k], k + 1);
    AllDue(dates[..k + 1], quantities, asOf, dates[k]);
    assert LotsOf(dates[..k + 1], quantities, asOf) == LotsOf(dates, quantities, asOf)[..k + 1];
  }

  lemma ExcessIs(quantities: map<int, nat>, sold: nat, period: nat, asOf: int, k: nat, unsold: int)
    requires period > 0 && k < |Lots(quantities, asOf)|
    ensures var d := Sorted(quantities.Keys)[k];
            d in quantities
            && (Excess(Lots(quantities, asOf), k, sold, period) <= unsold <==>
                CanSell(DueUnits(quantities, d) - unsold, d - asOf, sold, period))
  {
    hide Capacity, Total, DueBy, Sorted;
    var dates := Sorted(quantities.Keys);
    var lots := Lots(quantities, asOf);
    var d := dates[k];
    TotalIsDue(dates, quantities, asOf, k);
    var n := DueUnits(quantities, d) - unsold;
    if n >= 0 {
      CapacityIs(sold, period, lots[k].days, n);
    }
  }

  /** The projection is the least number of units that must be left over, counted by dates. */
  lemma ProjectionExact(quantities: map<int, nat>, sold: nat, period: nat, asOf: int)
    requires period > 0
    ensures LeastUnsold(quantities, sold, period, asOf, PeakShortfall(Lots(quantities, asOf), sold, period))
  {
    hide PeakShortfall, Excess, DueUnits, CanSell, LotsOf, Sorted;
    var dates, lots := Sorted(quantities.Keys), Lots(quantities, asOf);
    var unsold := PeakShortfall(lots, sold, period);
    PeakIsGreatest(lots, sold, period);
    assert |lots| == |dates| by { SameLength(quantities, asOf); }
    forall d | d in quantities
      ensures CanSell(DueUnits(quantities, d) - unsold, d - asOf, sold, period)
    {
      var k :| 0 <= k < |dates| && dates[k] == d;
      ExcessIs(quantities, sold, period, asOf, k, unsold);
    }
    if unsold > 0 {
      var k :| 0 <= k < |lots| && Excess(lots, k, sold, period) == unsold;
      ExcessIs(quantities, sold, period, asOf, k, unsold - 1);
      assert DueUnits(quantities, dates[k]) - (unsold - 1) == DueUnits(quantities, dates[k]) - unsold + 1;
      assert dates[k] in quantities;
    }
  }

  lemma SameLength(quantities: map<int, nat>, asOf: int)
    ensures |Lots(quantities, asOf)| == |Sorted(quantities.Keys)|
  {
  }

  // ----- The loop -----

  method Project(quantities: map<int, nat>, sold: nat, period: nat, asOf: int) returns (p: Projection)
    requires period > 0
    ensures p.unsold == PeakShortfall(Lots(quantities, asOf), sold, period)
    ensures LeastUnsold(quantities, sold, period, asOf, p.unsold)
    ensures p.nearest == if quantities == map[] then None else Some(Min(quantities.Keys))
    ensures p.risk == NotApplicable <==> quantities == map[]
    ensures p.risk == High <==> p.unsold > 0
    ensures p.risk == Watch <==>
      && p.unsold == 0 && quantities != map[] && sold > 0 && Min(quantities.Keys) > asOf
      && DaysToSell(Total(Lots(quantities, asOf)), sold, period) >= (Min(quantities.Keys) - asOf) as real * 0.8
  {
    hide Min, Sorted, SellsTooSlowly, Capacity, Total, PeakShortfall, SortedLots, LeastUnsold, DaysToSell;
    NothingAtRisk(sold, period);
    ProjectionExact(quantities, sold, period, asOf);
    if quantities == map[] {
      SortedEmpty();
      assert quantities.Keys == {};
      assert Lots(quantities, asOf) == [];
      return Projection(NotApplicable, 0, None);
    }
    assert quantities.Keys != {};
    var nearest := Min(quantities.Keys);
    var dates := Sorted(quantities.Keys);
    ghost var lots := Lots(quantities, asOf);
    var cumulative: nat, unsold: nat := 0, 0;
    for i := 0 to |dates|
      invariant lots[..0] == []
      invariant cumulative == Total(lots[..i])
      invariant unsold == PeakShortfall(lots[..i], sold, period)
    {
      PrefixStep(lots, i, sold, period);
      cumulative := cumulative + quantities[dates[i]];
      var days := if dates[i] > asOf then dates[i] - asOf else 0;
      var projected := Capacity(sold, period, days);
      if cumulative > projected && cumulative - projected > unsold {
        unsold := cumulative - projected;
      }
    }
    assert lots[..|dates|] == lots;
    if unsold > 0 {
      return Projection(High, unsold, Some(nearest));
    }
    SlowExactly(cumulative, nearest - asOf, sold, period);
    if SellsTooSlowly(cumulative, nearest - asOf, sold, period) {
      return Projection(Watch, 0, Some(nearest));
    }
    return Projection(Safe, 0, Some(nearest));
  }

  // ----- Sales plans -----

  /**
   A sales plan: `plan(i, t)` units of lot `i` have been sold by the end of day `t`. Nothing is
   sold before day 1, after the lot's expiry, or beyond its quantity.
   */
  ghost predicate IsPlan(lots: seq<Lot>, plan: (nat, nat) -> nat) {
    forall i: nat :: i < |lots| ==> IsLotPlan(lots[i], i, plan)
  }

  ghost predicate IsLotPlan(lot: Lot, i: nat, plan: (nat, nat) -> nat) {
    && plan(i, 0) == 0
    && (forall t: nat, u: nat :: t <= u ==> plan(i, t) <= plan(i, u))
    && (forall t: nat :: t >= lot.days ==> plan(i, t) == plan(i, lot.days))
    && plan(i, lot.days) <= lot.quantity
  }

  /** Units of the first `n` lots sold by the end of day `t`. */
  ghost function SoldBy(plan: (nat, nat) -> nat, n: nat, t: nat): nat {
    if n == 0 then 0 else SoldBy(plan, n - 1, t) + plan(n - 1, t)
  }

  /** The rate is respected at each expiry date: the least a plan can be asked for. */
  ghost predicate WithinRateAtExpiries(lots: seq<Lot>, plan: (nat, nat) -> nat, sold: nat, period: nat) {
    forall k :: 0 <= k < |lots| ==> SoldBy(plan, |lots|, lots[k].days) * period <= sold * lots[k].days
  }

  /** The rate is respected on every day: the most a plan can be asked for. */
  ghost predicate WithinRateDaily(lots: seq<Lot>, plan: (nat, nat) -> nat, sold: nat, period: nat) {
    forall t: nat :: SoldBy(plan, |lots|, t) * period <= sold * t
  }

  /** Units of the first `n` lots that expire unsold. */
  ghost function Unsold(lots: seq<Lot>, plan: (nat, nat) -> nat, n: nat): int
    requires n <= |lots|
  {
    if n == 0 then 0 else Unsold(lots, plan, n - 1) + lots[n - 1].quantity - plan(n - 1, lots[n - 1].days)
  }

  lemma {:induction false} UnsoldBound(lots: seq<Lot>, plan: (nat, nat) -> nat, n: nat, t: nat)
    requires n <= |lots| && IsPlan(lots, plan)
    requires forall i :: 0 <= i < n ==> lots[i].days <= t
    ensures Unsold(lots, plan, n) == Total(lots[..n]) - SoldBy(plan, n, t)
  {
    if n > 0 {
      UnsoldBound(lots, plan, n - 1, t);
      assert lots[..n][..n - 1] == lots[..n - 1];
      assert IsLotPlan(lots[n - 1], n - 1, plan);
    } else {
      assert lots[..0] == [];
    }
  }

  lemma {:induction false} SoldByMonotone(plan: (nat, nat) -> nat, m: nat, n: nat, t: nat)
    requires m <= n
    ensures SoldBy(plan, m, t) <= SoldBy(plan, n, t)
    decreases n
  {
    if m < n {
      SoldByMonotone(plan, m, n - 1, t);
    }
  }

  lemma {:induction false} UnsoldMonotone(lots: seq<Lot>, plan: (nat, nat) -> nat, m: nat, n: nat)
    requires m <= n <= |lots| && IsPlan(lots, plan)
    ensures Unsold(lots, plan, m) <= Unsold(lots, plan, n)
    decreases n
  {
    if m < n {
      UnsoldMonotone(lots, plan, m, n - 1);
      assert IsLotPlan(lots[n - 1], n - 1, plan);
    }
  }

  /** No plan that respects the rate, even only at the expiry dates, leaves fewer units unsold. */
  lemma NoPlanDoesBetter(lots: seq<Lot>, plan: (nat, nat) -> nat, sold: nat, period: nat)
    requires period > 0 && SortedLots(lots)
    requires IsPlan(lots, plan) && WithinRateAtExpiries(lots, plan, sold, period)
    ensures PeakShortfall(lots, sold, period) <= Unsold(lots, plan, |lots|)
  {
    PrefixBound(lots, plan, sold, period, |lots|);
    assert lots[..|lots|] == lots;
  }

  lemma {:induction false} PrefixBound(lots: seq<Lot>, plan: (nat, nat) -> nat, sold: nat, period: nat, n: nat)
    requires period > 0 && SortedLots(lots) && n <= |lots|
    requires IsPlan(lots, plan) && WithinRateAtExpiries(lots, plan, sold, period)
    ensures PeakShortfall(lots[..n], sold, period) <= Unsold(lots, plan, n)
  {
    hide PeakShortfall, Unsold, SoldBy, Total, Capacity, IsPlan;
    if n == 0 {
      assert lots[..0] == [];
      NothingUnsold(lots, plan, sold, period);
    } else {
      var t := lots[n - 1].days;
      PrefixBound(lots, plan, sold, period, n - 1);
      PeakOfPrefix(lots, sold, period, n);
      UnsoldMonotone(lots, plan, n - 1, n);
      UnsoldBound(lots, plan, n, t);
      SoldByMonotone(plan, n, |lots|, t);
      CapacityIs(sold, period, t, SoldBy(plan, |lots|, t));
    }
  }

  lemma NothingUnsold(lots: seq<Lot>, plan: (nat, nat) -> nat, sold: nat, period: nat)
    requires period > 0
    ensures PeakShortfall([], sold, period) == 0 && Unsold(lots, plan, 0) == 0
  {
  }

  lemma PeakOfPrefix(lots: seq<Lot>, sold: nat, period: nat, n: nat)
    requires period > 0 && 0 < n <= |lots|
    ensures var before := PeakShortfall(lots[..n - 1], sold, period);
            var excess := Total(lots[..n]) - Capacity(sold, period, lots[n - 1].days);
            PeakShortfall(lots[..n], sold, period) == if excess > before then excess else before
  {
    hide Total, Capacity;
    assert lots[..n][..n - 1] == lots[..n - 1];
  }

  // ----- Earliest expiry first -----

  /** How many units of the first `n` lots can be sold in time. */
  ghost function Sellable(lots: seq<Lot>, sold: nat, period: nat, n: nat): nat
    requires period > 0 && n <= |lots|
  {
    if n == 0 then 0
    else
      var more := Sellable(lots, sold, period, n - 1) + lots[n - 1].quantity;
      var limit := Capacity(sold, period, lots[n - 1].days);
      if more < limit then more else limit
  }

  /**
   Sell the sellable units in order of expiry, as fast as the rate allows: by day `t`, the
   units numbered up to `Capacity(t)` are gone, and those of lot `i` are the ones numbered
   from `Sellable(i)` to `Sellable(i + 1)`.
   */
  ghost function EarliestFirst(lots: seq<Lot>, sold: nat, period: nat): (nat, nat) -> nat
    requires period > 0 && SortedLots(lots)
  {
    (i: nat, t: nat) => if i < |lots| then EarliestFirstSold(lots, sold, period, i, t) else 0
  }

  ghost function EarliestFirstSold(lots: seq<Lot>, sold: nat, period: nat, i: nat, t: nat): nat
    requires period > 0 && SortedLots(lots) && i < |lots|
  {
    SellableStep(lots, sold, period, i);
    Least(Sellable(lots, sold, period, i + 1), Capacity(sold, period, t))
    - Least(Sellable(lots, sold, period, i), Capacity(sold, period, t))
  }

  function Least(a: nat, b: nat): nat {
    if a < b then a else b
  }

  lemma SellableStep(lots: seq<Lot>, sold: nat, period: nat, i: nat)
    requires period > 0 && SortedLots(lots) && i < |lots|
    ensures Sellable(lots, sold, period, i) <= Sellable(lots, sold, period, i + 1)
         <= Sellable(lots, sold, period, i) + lots[i].quantity
    ensures Sellable(lots, sold, period, i + 1) <= Capacity(sold, period, lots[i].days)
  {
    if i > 0 {
      CapacityMonotone(sold, period, lots[i - 1].days, lots[i].days);
    }
  }

  lemma {:induction false} EarliestFirstSoldBy(lots: seq<Lot>, sold: nat, period: nat, n: nat, t: nat)
    requires period > 0 && SortedLots(lots) && n <= |lots|
    ensures SoldBy(EarliestFirst(lots, sold, period), n, t)
         == Least(Sellable(lots, sold, period, n), Capacity(sold, period, t))
  {
    hide Capacity, Sellable;
    if n == 0 {
      assert Sellable(lots, sold, period, 0) == 0 by { NothingSellable(lots, sold, period); }
    } else {
      EarliestFirstSoldBy(lots, sold, period, n - 1, t);
      SellableStep(lots, sold, period, n - 1);
    }
  }

  lemma NothingSellable(lots: seq<Lot>, sold: nat, period: nat)
    requires period > 0
    ensures Sellable(lots, sold, period, 0) == 0
  {
  }

  lemma EarliestFirstIsPlan(lots: seq<Lot>, sold: nat, period: nat)
    requires period > 0 && SortedLots(lots)
    ensures IsPlan(lots, EarliestFirst(lots, sold, period))
    ensures WithinRateDaily(lots, EarliestFirst(lots, sold, period), sold, period)
  {
    var plan := EarliestFirst(lots, sold, period);
    forall i: nat | i < |lots|
      ensures IsLotPlan(lots[i], i, plan)
    {
      SellableStep(lots, sold, period, i);
      assert Capacity(sold, period, 0) == 0;
      forall t: nat, u: nat | t <= u
        ensures plan(i, t) <= plan(i, u)
      {
        CapacityMonotone(sold, period, t, u);
      }
      forall t: nat | t >= lots[i].days
        ensures plan(i, t) == plan(i, lots[i].days)
      {
        CapacityMonotone(sold, period, lots[i].days, t);
      }
    }
    forall t: nat
      ensures SoldBy(plan, |lots|, t) * period <= sold * t
    {
      EarliestFirstSoldBy(lots, sold, period, |lots|, t);
      CapacityIs(sold, period, t, SoldBy(plan, |lots|, t));
    }
  }

  /** It sells in order: a lot starts selling only when all the sellable units before it are gone. */
  lemma EarliestFirstInOrder(lots: seq<Lot>, sold: nat, period: nat, i: nat, j: nat, t: nat)
    requires period > 0 && SortedLots(lots) && i < j < |lots|
    requires EarliestFirst(lots, sold, period)(j, t) > 0
    ensures EarliestFirst(lots, sold, period)(i, t) == EarliestFirst(lots, sold, period)(i, lots[i].days)
  {
    SellableStep(lots, sold, period, i);
    SellableStep(lots, sold, period, j);
    SellableMonotone(lots, sold, period, i + 1, j);
  }

  lemma {:induction false} SellableMonotone(lots: seq<Lot>, sold: nat, period: nat, m: nat, n: nat)
    requires period > 0 && SortedLots(lots) && m <= n <= |lots|
    ensures Sellable(lots, sold, period, m) <= Sellable(lots, sold, period, n)
    decreases n
  {
    if m < n {
      SellableMonotone(lots, sold, period, m, n - 1);
      SellableStep(lots, sold, period, n - 1);
    }
  }

  lemma {:induction false} SellableIsRest(lots: seq<Lot>, sold: nat, period: nat, n: nat)
    requires period > 0 && SortedLots(lots) && n <= |lots|
    ensures Sellable(lots, sold, period, n) == Total(lots[..n]) - PeakShortfall(lots[..n], sold, period)
  {
    if n > 0 {
      SellableIsRest(lots, sold, period, n - 1);
      assert lots[..n][..n - 1] == lots[..n - 1];
    }
  }

  /** Selling the earliest expiry first leaves exactly the projected number of units unsold. */
  lemma EarliestFirstIsOptimal(lots: seq<Lot>, sold: nat, period: nat)
    requires period > 0 && SortedLots(lots)
    ensures Unsold(lots, EarliestFirst(lots, sold, period), |lots|) == PeakShortfall(lots, sold, period)
  {
    if lots != [] {
      var plan, t := EarliestFirst(lots, sold, period), lots[|lots| - 1].days;
      EarliestFirstIsPlan(lots, sold, period);
      UnsoldBound(lots, plan, |lots|, t);
      EarliestFirstSoldBy(lots, sold, period, |lots|, t);
      SellableStep(lots, sold, period, |lots| - 1);
      SellableIsRest(lots, sold, period, |lots|);
      assert lots[..|lots|] == lots;
    }
  }
}
