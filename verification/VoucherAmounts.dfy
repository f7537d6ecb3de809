/**
 What the amounts of a voucher are (app/services/voucher.py), said in exact arithmetic: which numbers they are the
 nearest paise to, how far the parts of a price can be from the whole, and what each ledger receives.
 */
module VoucherAmounts {
  import opened Options
  import opened Voucher

  // ----- The nearest paise -----

  /** `x` is the whole number nearest to `r`, and the one away from zero when two are as near. */
  ghost predicate NearestTo(x: int, r: real) {
    var e := x as real - r;
    -0.5 <= e <= 0.5 && (e == -0.5 ==> r < 0.0) && (e == 0.5 ==> r > 0.0)
  }

  lemma RoundIsNearest(num: int, den: nat)
    requires den > 0
    ensures NearestTo(RoundHalfUp(num, den), num as real / den as real)
  {
    var x := RoundHalfUp(num, den);
    RoundBounds(num, den);
    var r := num as real / den as real;
    assert r * den as real == num as real;
    DistanceFrom(x, num, den, r);
  }

  /** In whole numbers: twice the distance is at most the denominator. */
  lemma RoundBounds(num: int, den: nat)
    requires den > 0
    ensures var x := RoundHalfUp(num, den);
            -(den as int) <= 2 * (x * den - num) <= den
            && (2 * (x * den - num) == den ==> num > 0) && (2 * (x * den - num) == -(den as int) ==> num < 0)
  {
    var n := if num >= 0 then 2 * num + den else -2 * num + den;
    var q := n / (2 * den);
    assert n == q * (2 * den) + n % (2 * den);
    assert q * (2 * den) == 2 * (q * den);
  }

  lemma DistanceFrom(x: int, num: int, den: nat, r: real)
    requires den > 0 && r * den as real == num as real
    requires -(den as int) <= 2 * (x * den - num) <= den
    requires (2 * (x * den - num) == den ==> num > 0) && (2 * (x * den - num) == -(den as int) ==> num < 0)
    ensures NearestTo(x, r)
  {
    var e, k := x as real - r, x * den - num;
    assert e * den as real == k as real;
    Quotient(e, den as real, k as real);
    Positive(r, den as real);
  }

  lemma Quotient(e: real, d: real, k: real)
    requires d > 0.0 && e * d == k && -d <= 2.0 * k <= d
    ensures -0.5 <= e <= 0.5 && (e == 0.5 ==> 2.0 * k == d) && (e == -0.5 ==> 2.0 * k == -d)
  {
    if e > 0.5 {
      Larger(e, 0.5, d);
    } else if e < -0.5 {
      Larger(-0.5, e, d);
    }
  }

  lemma Larger(a: real, b: real, d: real)
    requires a > b && d > 0.0
    ensures a * d > b * d
  {
  }

  lemma Positive(r: real, d: real)
    requires d > 0.0
    ensures (r * d > 0.0 ==> r > 0.0) && (r * d < 0.0 ==> r < 0.0)
  {
  }

  // ----- The lines -----

  /** The rate of GST that applies to a line, and whether it is split between centre and state. */
  function RateOf(terms: Terms, g: Group): int {
    if terms.kind !in {Sale, SalesReturn} then g.gstRate
    else if terms.interstate then match terms.igst { case None => g.gstRate case Some(rate) => rate }
    else
      match (terms.cgst, terms.sgst)
      case (None, None) => g.gstRate
      case (Some(c), None) => c
      case (None, Some(s)) => s
      case (Some(c), Some(s)) => c + s
  }

  /** The discount is the nearest paise to its percentage of the gross amount; purchases have none. */
  lemma DiscountIsNearest(terms: Terms, g: Group)
    ensures var gross := g.rate * g.quantity;
            NearestTo(gross - LineAmount(terms, g),
              if terms.kind in {Sale, SalesReturn} then (gross * g.discount) as real / 10000.0 else 0.0)
  {
    hide RoundHalfUp, NearestTo;
    var gross, rate := g.rate * g.quantity, if SalesSide(terms.kind) then g.discount else 0;
    RoundIsNearest(gross * rate, 10_000);
    assert gross * 0 == 0;
  }

  /** A sales price includes its GST, so the taxable value is price * 100 / (100 + rate); a purchase price does not. */
  lemma TaxableIsNearest(terms: Terms, g: Group)
    ensures var l, amount, rate := LineOf(terms, g), LineAmount(terms, g), RateOf(terms, g);
            l.gstRate == rate
            && (terms.kind in {Sale, SalesReturn} && rate > 0 ==>
                  NearestTo(l.taxable, (amount * 10_000) as real / (10_000 + rate) as real))
            && (terms.kind !in {Sale, SalesReturn} || rate <= 0 ==> l.taxable == amount)
  {
    hide RoundHalfUp, NearestTo, LineAmount, Percent;
    var amount, rate := LineAmount(terms, g), RateOf(terms, g);
    if rate > 0 {
      RoundIsNearest(amount * 10_000, 10_000 + rate);
    }
  }

  /** Between states all of the tax is IGST; within a state each half of the rate gives one tax, and they are equal. */
  lemma TaxesAreNearest(terms: Terms, g: Group) returns (half: int)
    ensures NearestTo(half, RateOf(terms, g) as real / 2.0)
    ensures var l, rate := LineOf(terms, g), RateOf(terms, g);
            if terms.kind in {Sale, SalesReturn} && terms.interstate then
              l.cgst == 0 && l.sgst == 0 && NearestTo(l.igst, (l.taxable * rate) as real / 10000.0)
            else
              l.igst == 0 && l.cgst == l.sgst && NearestTo(l.cgst, (l.taxable * half) as real / 10000.0)
  {
    hide RoundHalfUp, NearestTo, LineAmount, SaleTaxable;
    var l, rate := LineOf(terms, g), RateOf(terms, g);
    half := RoundHalfUp(rate, 2);
    RoundIsNearest(rate, 2);
    RoundIsNearest(l.taxable * rate, 10_000);
    RoundIsNearest(l.taxable * half, 10_000);
  }

  /** The taxable value and the tax on it, before that is rounded, come to within half a paise and its tax. */
  lemma TaxableGap(amount: int, rate: int)
    requires rate >= 0
    ensures var t := SaleTaxable(amount, rate);
            -(10_000 + rate) <= 2 * (t * 10_000 + t * rate - amount * 10_000) <= 10_000 + rate
  {
    hide RoundHalfUp;
    var t := SaleTaxable(amount, rate);
    if rate > 0 {
      RoundBounds(amount * 10_000, 10_000 + rate);
      assert t * (10_000 + rate) == t * 10_000 + t * rate;
    } else {
      assert t * rate == 0;
    }
  }

  lemma PercentGap(amount: int, rate: int)
    ensures -10_000 <= 2 * (Percent(amount, rate) * 10_000 - amount * rate) <= 10_000
  {
    RoundBounds(amount * rate, 10_000);
  }

  /** The parts of a sales line add up to its price, give or take the paise lost in rounding. */
  lemma PriceIsSplit(terms: Terms, g: Group)
    requires terms.kind in {Sale, SalesReturn} && 0 <= RateOf(terms, g) <= 10_000
    ensures var l, amount := LineOf(terms, g), LineAmount(terms, g);
            var gap := l.taxable + l.cgst + l.sgst + l.igst - amount;
            (terms.interstate ==> -1 <= gap <= 1)
            && (!terms.interstate && RateOf(terms, g) % 2 == 0 ==> -2 <= gap <= 2)
  {
    hide RoundHalfUp, LineAmount, Percent, SaleTaxable;
    var l, amount, rate := LineOf(terms, g), LineAmount(terms, g), RateOf(terms, g);
    TaxableGap(amount, rate);
    var tax := l.taxable * rate;
    if terms.interstate {
      PercentGap(l.taxable, rate);
    } else if rate % 2 == 0 {
      HalfOfEven(rate);
      PercentGap(l.taxable, rate / 2);
      TwiceHalf(l.taxable, rate);
    }
  }

  lemma TwiceHalf(x: int, rate: int)
    requires rate % 2 == 0
    ensures 2 * (x * (rate / 2)) == x * rate
  {
  }

  lemma HalfOfEven(rate: int)
    requires rate >= 0 && rate % 2 == 0
    ensures RoundHalfUp(rate, 2) == rate / 2
  {
  }

  /** The final value is the rupee nearest to the sum of the columns, and the round-off is what that adds. */
  lemma FinalIsNearestRupee(terms: Terms, groups: seq<Group>)
    ensures var s := Summarize(LinesOf(terms, groups));
            var total := s.taxable + s.cgst + s.sgst + s.igst;
            s.final % 100 == 0 && NearestTo(s.final / 100, total as real / 100.0) && s.final == total + s.roundOff
  {
    hide RoundHalfUp, NearestTo, LinesOf, Sum;
    var s := Summarize(LinesOf(terms, groups));
    RoundIsNearest(s.taxable + (s.cgst + s.sgst + s.igst), 100);
  }

  // ----- What each ledger receives -----

  /** The total posted to a ledger. */
  function Posted(entries: seq<Entry>, ledger: string): int {
    if entries == [] then 0
    else
      var e := entries[|entries| - 1];
      Posted(entries[..|entries| - 1], ledger) + if e.ledger == ledger then e.amount else 0
  }

  lemma {:induction false} PostedConcat(a: seq<Entry>, b: seq<Entry>, ledger: string)
    ensures Posted(a + b, ledger) == Posted(a, ledger) + Posted(b, ledger)
    decreases |b|
  {
    if b == [] {
      assert a + b == a;
    } else {
      assert (a + b)[..|a + b| - 1] == a + b[..|b| - 1];
      PostedConcat(a, b[..|b| - 1], ledger);
    }
  }

  lemma PostedOne(e: Entry, ledger: string)
    ensures Posted([e], ledger) == if e.ledger == ledger then e.amount else 0
  {
    assert [e][..0] == [];
  }

  /** The ledgers of a line: where its value goes, and where its three taxes go. */
  datatype Accounts = Accounts(income: string, cgst: Option<string>, sgst: Option<string>, igst: Option<string>)

  /** The accounts of a sales line are those of its rate; all lines of a purchase have the same. */
  function AccountsOf(kind: Kind, settings: Settings, gstRate: int): Option<Accounts> {
    if kind in {Sale, SalesReturn} then
      if 0 <= gstRate <= 10_000 && gstRate in settings.salesLedgers then
        var own := settings.salesLedgers[gstRate];
        Some(Accounts(own.sales, Some(own.cgst), Some(own.sgst), own.igst))
      else None
    else
      var purchase :- settings.purchase;
      Some(Accounts(purchase, settings.cgst, settings.sgst, None))
  }

  function Share(account: Option<string>, ledger: string, amount: int): int {
    if account == Some(ledger) then amount else 0
  }

  /** What taxes at this rate owe to a ledger. */
  function TaxOwed(kind: Kind, settings: Settings, gstRate: int, cgst: int, sgst: int, igst: int, ledger: string): int {
    match AccountsOf(kind, settings, gstRate)
    case None => 0
    case Some(a) => Share(a.cgst, ledger, cgst) + Share(a.sgst, ledger, sgst) + Share(a.igst, ledger, igst)
  }

  /** What the value of a line owes to a ledger. */
  function ValueOwed(kind: Kind, settings: Settings, l: Line, ledger: string): int {
    match AccountsOf(kind, settings, l.gstRate)
    case None => 0
    case Some(a) => Share(Some(a.income), ledger, l.taxable)
  }

  function ValuesOwed(kind: Kind, settings: Settings, lines: seq<Line>, ledger: string): int {
    if lines == [] then 0
    else
      ValuesOwed(kind, settings, lines[..|lines| - 1], ledger)
      + ValueOwed(kind, settings, lines[|lines| - 1], ledger)
  }

  function TaxesOwed(kind: Kind, settings: Settings, lines: seq<Line>, ledger: string): int {
    if lines == [] then 0
    else
      var l := lines[|lines| - 1];
      TaxesOwed(kind, settings, lines[..|lines| - 1], ledger)
      + TaxOwed(kind, settings, l.gstRate, l.cgst, l.sgst, l.igst, ledger)
  }

  lemma {:induction false} LinesPosted(kind: Kind, settings: Settings, lines: seq<Line>, ledger: string)
    requires LineEntries(kind, settings, lines).Some?
    ensures Posted(LineEntries(kind, settings, lines).value, ledger)
         == (if kind == Sale then 1 else -1) * ValuesOwed(kind, settings, lines, ledger)
    decreases |lines|
  {
    hide Posted;
    if lines == [] {
      PostedNothing(ledger);
    } else {
      var init, l := lines[..|lines| - 1], lines[|lines| - 1];
      LinesPosted(kind, settings, init, ledger);
      var e := LineEntries(kind, settings, lines).value[|LineEntries(kind, settings, init).value|];
      PostedConcat(LineEntries(kind, settings, init).value, [e], ledger);
      PostedOne(e, ledger);
    }
  }

  lemma PostedNothing(ledger: string)
    ensures Posted([], ledger) == 0
  {
  }

  lemma TaxPosted(kind: Kind, account: string, total: int, ledger: string)
    requires total >= 0
    ensures Posted(TaxEntry(kind, account, total), ledger)
         == (if kind == Sale then 1 else -1) * Share(Some(account), ledger, total)
  {
    hide Posted;
    PostedNothing(ledger);
    if total > 0 {
      PostedOne(TaxEntry(kind, account, total)[0], ledger);
    }
  }

  function GroupsOwed(kind: Kind, settings: Settings, groups: seq<TaxGroup>, ledger: string): int {
    if groups == [] then 0
    else
      var g := groups[0];
      TaxOwed(kind, settings, g.gstRate, g.cgst, g.sgst, g.igst, ledger)
      + GroupsOwed(kind, settings, groups[1..], ledger)
  }

  /** Collecting a line's taxes under its rate changes what is owed by just these taxes. */
  lemma {:induction false} AddTaxOwed(kind: Kind, settings: Settings, groups: seq<TaxGroup>, l: Line, ledger: string)
    ensures GroupsOwed(kind, settings, AddTax(groups, l), ledger)
         == GroupsOwed(kind, settings, groups, ledger)
            + TaxOwed(kind, settings, l.gstRate, l.cgst, l.sgst, l.igst, ledger)
    decreases |groups|
  {
    hide AccountsOf;
    if groups != [] && groups[0].gstRate != l.gstRate {
      AddTaxOwed(kind, settings, groups[1..], l, ledger);
    }
  }

  lemma {:induction false} GroupedOwed(kind: Kind, settings: Settings, lines: seq<Line>, ledger: string)
    ensures GroupsOwed(kind, settings, GroupTaxes(lines), ledger) == TaxesOwed(kind, settings, lines, ledger)
    decreases |lines|
  {
    hide AddTax, TaxOwed;
    if lines != [] {
      GroupedOwed(kind, settings, lines[..|lines| - 1], ledger);
      AddTaxOwed(kind, settings, GroupTaxes(lines[..|lines| - 1]), lines[|lines| - 1], ledger);
    }
  }

  lemma {:induction false} GroupsOwedSnoc(kind: Kind, settings: Settings, groups: seq<TaxGroup>, g: TaxGroup,
                                          ledger: string)
    ensures GroupsOwed(kind, settings, groups + [g], ledger)
         == GroupsOwed(kind, settings, groups, ledger)
            + TaxOwed(kind, settings, g.gstRate, g.cgst, g.sgst, g.igst, ledger)
    decreases |groups|
  {
    hide TaxOwed;
    if groups == [] {
      assert groups + [g] == [g];
    } else {
      assert (groups + [g])[1..] == groups[1..] + [g];
      GroupsOwedSnoc(kind, settings, groups[1..], g, ledger);
    }
  }

  lemma GroupPosted(kind: Kind, settings: Settings, g: TaxGroup, own: Ledgers, ledger: string)
    requires kind in {Sale, SalesReturn} && SalesLedgers(settings.salesLedgers, g.gstRate) == Some(own)
    requires GroupEntries(kind, own, g).Some? && g.cgst >= 0 && g.sgst >= 0 && g.igst >= 0
    ensures Posted(GroupEntries(kind, own, g).value, ledger)
         == (if kind == Sale then 1 else -1) * TaxOwed(kind, settings, g.gstRate, g.cgst, g.sgst, g.igst, ledger)
  {
    hide Posted, TaxEntry;
    var a, b := TaxEntry(kind, own.cgst, g.cgst), TaxEntry(kind, own.sgst, g.sgst);
    var c := TaxEntry(kind, own.igst.GetOr(""), g.igst);
    TaxPosted(kind, own.cgst, g.cgst, ledger);
    TaxPosted(kind, own.sgst, g.sgst, ledger);
    TaxPosted(kind, own.igst.GetOr(""), g.igst, ledger);
    PostedConcat(a, b, ledger);
    PostedConcat(a + b, c, ledger);
  }

  lemma {:induction false} GroupsPosted(kind: Kind, settings: Settings, groups: seq<TaxGroup>, ledger: string)
    requires kind in {Sale, SalesReturn} && AllGroupEntries(kind, settings.salesLedgers, groups).Some?
    requires forall g <- groups :: g.cgst >= 0 && g.sgst >= 0 && g.igst >= 0
    ensures Posted(AllGroupEntries(kind, settings.salesLedgers, groups).value, ledger)
         == (if kind == Sale then 1 else -1) * GroupsOwed(kind, settings, groups, ledger)
    decreases |groups|
  {
    hide Posted, GroupEntries, TaxOwed, SalesLedgers;
    if groups == [] {
      PostedNothing(ledger);
    } else {
      var init, g := groups[..|groups| - 1], groups[|groups| - 1];
      assert groups == init + [g] && g in groups && forall x <- init :: x in groups;
      GroupsPosted(kind, settings, init, ledger);
      var own := SalesLedgers(settings.salesLedgers, g.gstRate).value;
      GroupPosted(kind, settings, g, own, ledger);
      GroupsOwedSnoc(kind, settings, init, g, ledger);
      PostedConcat(AllGroupEntries(kind, settings.salesLedgers, init).value, GroupEntries(kind, own, g).value, ledger);
    }
  }

  /** All lines of a purchase owe their taxes to the same two ledgers. */
  lemma {:induction false} PurchaseTaxesOwed(kind: Kind, settings: Settings, lines: seq<Line>, ledger: string)
    requires kind !in {Sale, SalesReturn} && settings.purchase.Some?
    ensures TaxesOwed(kind, settings, lines, ledger)
         == Share(settings.cgst, ledger, Sum(lines, Cgst)) + Share(settings.sgst, ledger, Sum(lines, Sgst))
    decreases |lines|
  {
    if lines != [] {
      PurchaseTaxesOwed(kind, settings, lines[..|lines| - 1], ledger);
    }
  }

  // ----- The whole voucher -----

  /** The groups' rates are the lines' rates. */
  lemma {:induction false} GroupedRates(lines: seq<Line>, gstRate: int)
    ensures gstRate in Rates(GroupTaxes(lines)) <==> exists l <- lines :: l.gstRate == gstRate
    decreases |lines|
  {
    hide AddTax, Rates;
    if lines == [] {
      assert Rates([]) == [] by { NoRates(); }
    } else {
      var init, last := lines[..|lines| - 1], lines[|lines| - 1];
      GroupedRates(init, gstRate);
      AddTaxAppends(GroupTaxes(init), last);
      assert lines == init + [last];
      assert last in lines && forall l <- init :: l in lines;
    }
  }

  lemma NoRates()
    ensures Rates([]) == []
  {
  }

  /** The IGST of all lines at the rate of this one. */
  function TaxAtRate(lines: seq<Line>, gstRate: int, c: Column): int {
    Sum(AtRate(lines, gstRate), c)
  }

  /** No tax total that would be posted is negative: by rate on the sales side, over all lines on the other. */
  ghost predicate NoTaxBelowZero(kind: Kind, s: Summary) {
    if kind in {Sale, SalesReturn} then
      forall l <- s.lines, c | c in {Cgst, Sgst, Igst} :: TaxAtRate(s.lines, l.gstRate, c) >= 0
    else s.cgst >= 0 && s.sgst >= 0
  }

  lemma GroupOfRate(lines: seq<Line>, i: nat) returns (l: Line)
    requires i < |GroupTaxes(lines)|
    ensures l in lines && l.gstRate == GroupTaxes(lines)[i].gstRate
    ensures var g := GroupTaxes(lines)[i];
            g.cgst == TaxAtRate(lines, l.gstRate, Cgst) && g.sgst == TaxAtRate(lines, l.gstRate, Sgst)
            && g.igst == TaxAtRate(lines, l.gstRate, Igst)
  {
    hide GroupTaxes, AtRate, Sum;
    var groups := GroupTaxes(lines);
    GroupsMatchLines(lines, i);
    GroupedRates(lines, groups[i].gstRate);
    assert Rates(groups)[i] == groups[i].gstRate;
    l :| l in lines && l.gstRate == groups[i].gstRate;
  }

  lemma GroupsNotNegative(kind: Kind, s: Summary)
    requires kind in {Sale, SalesReturn} && NoTaxBelowZero(kind, s)
    ensures forall g <- GroupTaxes(s.lines) :: g.cgst >= 0 && g.sgst >= 0 && g.igst >= 0
  {
    hide GroupTaxes, TaxAtRate;
    forall i | 0 <= i < |GroupTaxes(s.lines)|
      ensures var g := GroupTaxes(s.lines)[i]; g.cgst >= 0 && g.sgst >= 0 && g.igst >= 0
    {
      var l := GroupOfRate(s.lines, i);
    }
  }

  lemma TaxesPosted(kind: Kind, settings: Settings, s: Summary, ledger: string)
    requires Consistent(kind, s) && NoTaxBelowZero(kind, s)
    requires TaxEntries(kind, settings, s).Some? && (kind !in {Sale, SalesReturn} ==> settings.purchase.Some?)
    ensures Posted(TaxEntries(kind, settings, s).value, ledger)
         == (if kind == Sale then 1 else -1) * TaxesOwed(kind, settings, s.lines, ledger)
  {
    hide Posted, TaxEntry, GroupTaxes, AllGroupEntries, Sum, NoTaxBelowZero, TaxesOwed;
    if kind in {Sale, SalesReturn} {
      GroupsNotNegative(kind, s);
      GroupsPosted(kind, settings, GroupTaxes(s.lines), ledger);
      GroupedOwed(kind, settings, s.lines, ledger);
    } else {
      PurchaseTaxesPosted(kind, settings, s, ledger);
    }
  }

  lemma PurchaseTaxesPosted(kind: Kind, settings: Settings, s: Summary, ledger: string)
    requires kind !in {Sale, SalesReturn} && settings.purchase.Some? && TaxEntries(kind, settings, s).Some?
    requires Consistent(kind, s) && NoTaxBelowZero(kind, s)
    ensures Posted(TaxEntries(kind, settings, s).value, ledger)
         == (if kind == Sale then 1 else -1) * TaxesOwed(kind, settings, s.lines, ledger)
  {
    hide Posted, TaxEntry, Sum, TaxesOwed;
    var a := TaxEntry(kind, settings.cgst.GetOr(""), s.cgst);
    var b := TaxEntry(kind, settings.sgst.GetOr(""), s.sgst);
    TaxPosted(kind, settings.cgst.GetOr(""), s.cgst, ledger);
    TaxPosted(kind, settings.sgst.GetOr(""), s.sgst, ledger);
    PostedConcat(a, b, ledger);
    PurchaseTaxesOwed(kind, settings, s.lines, ledger);
  }

  /**
   Each ledger receives just what the lines owe it, whatever they are grouped by: credits on a sale and debits
   otherwise, with the party on the other side and the round-off in its own ledger.
   */
  lemma LedgerReceives(kind: Kind, settings: Settings, party: string, s: Summary, ledger: string)
    requires Consistent(kind, s) && NoTaxBelowZero(kind, s) && VoucherEntries(kind, settings, party, s).Some?
    ensures Posted(VoucherEntries(kind, settings, party, s).value, ledger)
         == (if kind == Sale then 1 else -1)
            * (ValuesOwed(kind, settings, s.lines, ledger) + TaxesOwed(kind, settings, s.lines, ledger)
               + Share(settings.roundOff, ledger, s.roundOff) - Share(Some(party), ledger, s.final))
  {
    hide Posted, LineEntries, TaxEntries, TaxesOwed, ValuesOwed, Consistent, NoTaxBelowZero;
    var first := Entry(party, -Sign(kind) * s.final);
    var lines, taxes := LineEntries(kind, settings, s.lines).value, TaxEntries(kind, settings, s).value;
    var roundOff := RoundOffEntries(kind, settings, s).value;
    PostedOne(first, ledger);
    LinesPosted(kind, settings, s.lines, ledger);
    TaxesPosted(kind, settings, s, ledger);
    PostedNothing(ledger);
    if s.roundOff != 0 {
      PostedOne(roundOff[0], ledger);
    }
    PostedConcat([first], lines, ledger);
    PostedConcat([first] + lines, taxes, ledger);
    PostedConcat([first] + lines + taxes, roundOff, ledger);
  }

  // ----- When there is a voucher -----

  ghost predicate LedgersSet(kind: Kind, settings: Settings, s: Summary) {
    if kind in {Sale, SalesReturn} then
      forall l <- s.lines ::
        0 <= l.gstRate <= 10_000 && l.gstRate in settings.salesLedgers
        && (TaxAtRate(s.lines, l.gstRate, Igst) > 0 ==> settings.salesLedgers[l.gstRate].igst.Some?)
    else
      settings.purchase.Some? && (s.cgst > 0 ==> settings.cgst.Some?) && (s.sgst > 0 ==> settings.sgst.Some?)
  }

  lemma {:induction false} SalesLinesBuilt(kind: Kind, settings: Settings, lines: seq<Line>)
    requires kind in {Sale, SalesReturn}
    ensures LineEntries(kind, settings, lines).Some? <==>
              forall l <- lines :: 0 <= l.gstRate <= 10_000 && l.gstRate in settings.salesLedgers
    decreases |lines|
  {
    if lines != [] {
      var init, last := lines[..|lines| - 1], lines[|lines| - 1];
      assert lines == init + [last] && last in lines && forall l <- init :: l in lines;
      SalesLinesBuilt(kind, settings, init);
    }
  }

  lemma {:induction false} PurchaseLinesBuilt(kind: Kind, settings: Settings, lines: seq<Line>)
    requires kind !in {Sale, SalesReturn}
    ensures LineEntries(kind, settings, lines).Some? <==> lines == [] || settings.purchase.Some?
    decreases |lines|
  {
    if lines != [] {
      PurchaseLinesBuilt(kind, settings, lines[..|lines| - 1]);
    }
  }

  lemma {:induction false} GroupsBuilt(kind: Kind, ledgers: map<int, Ledgers>, groups: seq<TaxGroup>)
    ensures AllGroupEntries(kind, ledgers, groups).Some? <==>
              forall g <- groups ::
                0 <= g.gstRate <= 10_000 && g.gstRate in ledgers && (g.igst > 0 ==> ledgers[g.gstRate].igst.Some?)
    decreases |groups|
  {
    hide TaxEntry;
    if groups != [] {
      var init, last := groups[..|groups| - 1], groups[|groups| - 1];
      assert groups == init + [last] && last in groups && forall g <- init :: g in groups;
      GroupsBuilt(kind, ledgers, init);
    }
  }

  lemma SalesTaxesBuilt(kind: Kind, settings: Settings, s: Summary)
    requires kind in {Sale, SalesReturn}
    ensures LineEntries(kind, settings, s.lines).Some? && TaxEntries(kind, settings, s).Some? <==>
              LedgersSet(kind, settings, s)
  {
    hide GroupTaxes, AllGroupEntries, LineEntries, TaxAtRate;
    var groups := GroupTaxes(s.lines);
    SalesLinesBuilt(kind, settings, s.lines);
    GroupsBuilt(kind, settings.salesLedgers, groups);
    forall i | 0 <= i < |groups|
      ensures exists l <- s.lines ::
                l.gstRate == groups[i].gstRate && groups[i].igst == TaxAtRate(s.lines, l.gstRate, Igst)
    {
      var l := GroupOfRate(s.lines, i);
    }
    forall l <- s.lines
      ensures exists g <- groups :: l.gstRate == g.gstRate && g.igst == TaxAtRate(s.lines, l.gstRate, Igst)
    {
      GroupedRates(s.lines, l.gstRate);
      var i :| 0 <= i < |groups| && Rates(groups)[i] == l.gstRate;
      var k := GroupOfRate(s.lines, i);
      assert groups[i] in groups;
    }
  }

  /** A voucher is built exactly when it has a party and every ledger that would receive something is set. */
  lemma BuiltExactly(kind: Kind, settings: Settings, party: string, s: Summary)
    ensures VoucherEntries(kind, settings, party, s).Some? <==>
              party != "" && LedgersSet(kind, settings, s) && (s.roundOff != 0 ==> settings.roundOff.Some?)
  {
    hide LineEntries, TaxAtRate, AllGroupEntries, TaxEntry;
    if kind in {Sale, SalesReturn} {
      SalesTaxesBuilt(kind, settings, s);
    } else {
      PurchaseLinesBuilt(kind, settings, s.lines);
    }
  }
}
