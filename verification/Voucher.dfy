/**
 The amounts of a voucher (app/services/voucher.py) and the signed ledger and inventory entries
 posted for it (app/services/tally.py). Amounts are whole paise, rates hundredths of a percent;
 a positive entry is a credit, a negative one a debit.
 */
module Voucher {
  import opened Options

  // ----- Rounding -----

  /** `Decimal.quantize` with ROUND_HALF_UP: to the nearest whole, ties away from zero. */
  function RoundHalfUp(num: int, den: nat): int
    requires den > 0
  {
    if num >= 0 then (2 * num + den) / (2 * den) else -((-2 * num + den) / (2 * den))
  }

  // ----- The voucher summary -----

  datatype Kind = Sale | SalesReturn | Purchase | Receive

  predicate SalesSide(kind: Kind) {
    kind == Sale || kind == SalesReturn
  }

  /** A group of equal items: quantity, rate in paise, discount and GST in hundredths of a percent. */
  datatype Group = Group(quantity: nat, rate: int, discount: int, gstRate: int)

  /** The tax choices entered for the whole batch. */
  datatype Terms = Terms(kind: Kind, interstate: bool, cgst: Option<int>, sgst: Option<int>, igst: Option<int>)

  datatype Line = Line(gstRate: int, taxable: int, cgst: int, sgst: int, igst: int)

  datatype Summary = Summary(lines: seq<Line>, taxable: int, cgst: int, sgst: int, igst: int, roundOff: int, final: int)

  function Percent(amount: int, rate: int): int {
    RoundHalfUp(amount * rate, 10_000)
  }

  /** The taxable part of an amount that includes GST. */
  function SaleTaxable(total: int, gstRate: int): int {
    if gstRate <= 0 then total else RoundHalfUp(total * 10_000, 10_000 + gstRate)
  }

  function LineAmount(terms: Terms, g: Group): int {
    var gross := g.rate * g.quantity;
    gross - Percent(gross, if SalesSide(terms.kind) then g.discount else 0)
  }

  function LineOf(terms: Terms, g: Group): Line {
    var amount := LineAmount(terms, g);
    if SalesSide(terms.kind) && terms.interstate then
      var rate := terms.igst.GetOr(g.gstRate);
      var taxable := SaleTaxable(amount, rate);
      Line(rate, taxable, 0, 0, Percent(taxable, rate))
    else if SalesSide(terms.kind) && (terms.cgst.Some? || terms.sgst.Some?) then
      var rate := terms.cgst.GetOr(0) + terms.sgst.GetOr(0);
      var taxable := SaleTaxable(amount, rate);
      var half := Percent(taxable, RoundHalfUp(rate, 2));
      Line(rate, taxable, half, half, 0)
    else
      var taxable := if SalesSide(terms.kind) then SaleTaxable(amount, g.gstRate) else amount;
      var half := Percent(taxable, RoundHalfUp(g.gstRate, 2));
      Line(g.gstRate, taxable, half, half, 0)
  }

  function LinesOf(terms: Terms, groups: seq<Group>): (lines: seq<Line>)
    ensures |lines| == |groups|
  {
    seq(|groups|, i requires 0 <= i < |groups| => LineOf(terms, groups[i]))
  }

  datatype Column = Taxable | Cgst | Sgst | Igst

  function Amount(l: Line, c: Column): int {
    match c
    case Taxable => l.taxable
    case Cgst => l.cgst
    case Sgst => l.sgst
    case Igst => l.igst
  }

  function Sum(lines: seq<Line>, c: Column): int {
    if lines == [] then 0 else Sum(lines[..|lines| - 1], c) + Amount(lines[|lines| - 1], c)
  }

  function Summarize(lines: seq<Line>): Summary {
    var before := Sum(lines, Taxable) + (Sum(lines, Cgst) + Sum(lines, Sgst) + Sum(lines, Igst));
    var final := RoundHalfUp(before, 100) * 100;
    Summary(lines, Sum(lines, Taxable), Sum(lines, Cgst), Sum(lines, Sgst), Sum(lines, Igst), final - before, final)
  }

  method CalculateVoucherSummary(terms: Terms, groups: seq<Group>) returns (s: Summary)
    ensures s == Summarize(LinesOf(terms, groups))
  {
    hide RoundHalfUp, LineOf;
    var lines: seq<Line> := [];
    var taxable, cgst, sgst, igst := 0, 0, 0, 0;
    for i := 0 to |groups|
      invariant lines == LinesOf(terms, groups)[..i]
      invariant taxable == Sum(lines, Taxable) && cgst == Sum(lines, Cgst)
      invariant sgst == Sum(lines, Sgst) && igst == Sum(lines, Igst)
    {
      var line := LineOf(terms, groups[i]);
      assert (lines + [line])[..|lines|] == lines;
      lines := lines + [line];
      taxable, cgst, sgst, igst := taxable + line.taxable, cgst + line.cgst, sgst + line.sgst, igst + line.igst;
    }
    assert lines == LinesOf(terms, groups);
    var before := taxable + (cgst + sgst + igst);
    var final := RoundHalfUp(before, 100) * 100;
    return Summary(lines, taxable, cgst, sgst, igst, final - before, final);
  }

  // ----- The entries -----

  /** The ledgers a GST rate is mapped to; IGST may have none. */
  datatype Ledgers = Ledgers(sales: string, cgst: string, sgst: string, igst: Option<string>)

  /** The Tally settings a voucher needs; an absent name is a blank setting. */
  datatype Settings = Settings(
    salesLedgers: map<int, Ledgers>,
    purchase: Option<string>,
    cgst: Option<string>,
    sgst: Option<string>,
    roundOff: Option<string>)

  datatype Entry = Entry(ledger: string, amount: int)

  /** The tax totals of one GST rate. */
  datatype TaxGroup = TaxGroup(gstRate: int, cgst: int, sgst: int, igst: int)

  function TaxTotal(g: TaxGroup): int {
    g.cgst + g.sgst + g.igst
  }

  /** `tax_by_rate`, in order of first appearance. */
  function AddTax(groups: seq<TaxGroup>, l: Line): seq<TaxGroup> {
    if groups == [] then [TaxGroup(l.gstRate, l.cgst, l.sgst, l.igst)]
    else if groups[0].gstRate == l.gstRate then
      var g := groups[0];
      [TaxGroup(g.gstRate, g.cgst + l.cgst, g.sgst + l.sgst, g.igst + l.igst)] + groups[1..]
    else [groups[0]] + AddTax(groups[1..], l)
  }

  function GroupTaxes(lines: seq<Line>): seq<TaxGroup> {
    if lines == [] then [] else AddTax(GroupTaxes(lines[..|lines| - 1]), lines[|lines| - 1])
  }

  function Sign(kind: Kind): int {
    if kind == Sale then 1 else -1
  }

  /** Only positive totals are posted. */
  function TaxEntry(kind: Kind, ledger: string, total: int): seq<Entry> {
    if total > 0 then [Entry(ledger, Sign(kind) * total)] else []
  }

  function GroupEntries(kind: Kind, ledgers: Ledgers, g: TaxGroup): Option<seq<Entry>> {
    if g.igst > 0 && ledgers.igst.None? then None
    else
      Some(TaxEntry(kind, ledgers.cgst, g.cgst) + TaxEntry(kind, ledgers.sgst, g.sgst)
           + TaxEntry(kind, ledgers.igst.GetOr(""), g.igst))
  }

  /** `sales_ledgers`, behind `gst_rate_key`: rates outside 0 to 100 per cent are refused. */
  function SalesLedgers(ledgers: map<int, Ledgers>, gstRate: int): Option<Ledgers> {
    if 0 <= gstRate <= 10_000 && gstRate in ledgers then Some(ledgers[gstRate]) else None
  }

  function AllGroupEntries(kind: Kind, ledgers: map<int, Ledgers>, groups: seq<TaxGroup>): Option<seq<Entry>> {
    if groups == [] then Some([])
    else
      var before :- AllGroupEntries(kind, ledgers, groups[..|groups| - 1]);
      var g := groups[|groups| - 1];
      var own :- SalesLedgers(ledgers, g.gstRate);
      var more :- GroupEntries(kind, own, g);
      Some(before + more)
  }

  /** Each line's amount, posted to the stock item and allocated to its income or purchase ledger. */
  function LineEntries(kind: Kind, settings: Settings, lines: seq<Line>): Option<seq<Entry>> {
    if lines == [] then Some([])
    else
      var before :- LineEntries(kind, settings, lines[..|lines| - 1]);
      var l := lines[|lines| - 1];
      if SalesSide(kind) then
        var own :- SalesLedgers(settings.salesLedgers, l.gstRate);
        Some(before + [Entry(own.sales, Sign(kind) * l.taxable)])
      else if settings.purchase.None? then None
      else Some(before + [Entry(settings.purchase.value, Sign(kind) * l.taxable)])
  }

  function TaxEntries(kind: Kind, settings: Settings, s: Summary): Option<seq<Entry>> {
    if SalesSide(kind) then AllGroupEntries(kind, settings.salesLedgers, GroupTaxes(s.lines))
    else if (s.cgst > 0 && settings.cgst.None?) || (s.sgst > 0 && settings.sgst.None?) then None
    else Some(TaxEntry(kind, settings.cgst.GetOr(""), s.cgst) + TaxEntry(kind, settings.sgst.GetOr(""), s.sgst))
  }

  function RoundOffEntries(kind: Kind, settings: Settings, s: Summary): Option<seq<Entry>> {
    if s.roundOff == 0 then Some([])
    else
      var ledger :- settings.roundOff;
      Some([Entry(ledger, Sign(kind) * s.roundOff)])
  }

  /** Every entry of the voucher, or none if a needed ledger is missing: party, lines, taxes, round-off. */
  function VoucherEntries(kind: Kind, settings: Settings, party: string, s: Summary): Option<seq<Entry>> {
    if party == "" || (!SalesSide(kind) && settings.purchase.None?) then None
    else
      var lines :- LineEntries(kind, settings, s.lines);
      var taxes :- TaxEntries(kind, settings, s);
      var roundOff :- RoundOffEntries(kind, settings, s);
      Some([Entry(party, -Sign(kind) * s.final)] + lines + taxes + roundOff)
  }

  /** The item rows, and the taxes collected by rate on the way. */
  method PostLines(kind: Kind, settings: Settings, lines: seq<Line>)
      returns (entries: seq<Entry>, groups: seq<TaxGroup>)
    requires LineEntries(kind, settings, lines).Some?
    ensures LineEntries(kind, settings, lines) == Some(entries) && groups == GroupTaxes(lines)
  {
    hide AddTax;
    entries, groups := [], [];
    for i := 0 to |lines|
      invariant LineEntries(kind, settings, lines[..i]) == Some(entries)
      invariant groups == GroupTaxes(lines[..i])
    {
      assert lines[..i + 1][..i] == lines[..i];
      LinePrefix(kind, settings, lines, i + 1);
      var l := lines[i];
      var ledger := if SalesSide(kind) then SalesLedgers(settings.salesLedgers, l.gstRate).value.sales
        else settings.purchase.value;
      entries := entries + [Entry(ledger, if kind == Sale then l.taxable else -l.taxable)];
      groups := AddTax(groups, l);
    }
    assert lines[..|lines|] == lines;
  }

  /** The tax rows of each rate. */
  method PostGroups(kind: Kind, ledgers: map<int, Ledgers>, groups: seq<TaxGroup>) returns (r: Option<seq<Entry>>)
    ensures r == AllGroupEntries(kind, ledgers, groups)
  {
    hide GroupEntries;
    var taxes: seq<Entry> := [];
    for i := 0 to |groups|
      invariant AllGroupEntries(kind, ledgers, groups[..i]) == Some(taxes)
    {
      assert groups[..i + 1][..i] == groups[..i];
      var g := groups[i];
      var own := SalesLedgers(ledgers, g.gstRate);
      var more := if own.Some? then GroupEntries(kind, own.value, g) else None;
      if more.None? {
        GroupsFail(kind, ledgers, groups, i + 1);
        return None;
      }
      taxes := taxes + more.value;
    }
    assert groups[..|groups|] == groups;
    return Some(taxes);
  }

  method BuildVoucher(kind: Kind, settings: Settings, party: string, s: Summary) returns (r: Option<seq<Entry>>)
    ensures r == VoucherEntries(kind, settings, party, s)
  {
    hide LineEntries, AllGroupEntries, TaxEntry, GroupTaxes;
    if party == "" || (!SalesSide(kind) && settings.purchase.None?) {
      return None;
    }
    var missingLedger := LineEntries(kind, settings, s.lines).None?;
    if missingLedger {
      return None;
    }
    var lines, groups := PostLines(kind, settings, s.lines);
    var taxes: Option<seq<Entry>>;
    if SalesSide(kind) {
      taxes := PostGroups(kind, settings.salesLedgers, groups);
    } else if (s.cgst > 0 && settings.cgst.None?) || (s.sgst > 0 && settings.sgst.None?) {
      taxes := None;
    } else {
      taxes := Some(TaxEntry(kind, settings.cgst.GetOr(""), s.cgst) + TaxEntry(kind, settings.sgst.GetOr(""), s.sgst));
    }
    var roundOff := RoundOffEntries(kind, settings, s);
    if taxes.None? || roundOff.None? {
      return None;
    }
    return Some([Entry(party, -Sign(kind) * s.final)] + lines + taxes.value + roundOff.value);
  }

  lemma {:induction false} LinePrefix(kind: Kind, settings: Settings, lines: seq<Line>, i: nat)
    requires i <= |lines| && LineEntries(kind, settings, lines).Some?
    ensures LineEntries(kind, settings, lines[..i]).Some?
    decreases |lines| - i
  {
    if i < |lines| {
      LinePrefix(kind, settings, lines, i + 1);
      assert lines[..i + 1][..i] == lines[..i];
    } else {
      assert lines[..i] == lines;
    }
  }

  lemma {:induction false} GroupsFail(kind: Kind, ledgers: map<int, Ledgers>, groups: seq<TaxGroup>, i: nat)
    requires i <= |groups| && AllGroupEntries(kind, ledgers, groups[..i]).None?
    ensures AllGroupEntries(kind, ledgers, groups).None?
    decreases |groups| - i
  {
    hide GroupEntries;
    if i < |groups| {
      assert groups[..i + 1][..i] == groups[..i];
      GroupsFail(kind, ledgers, groups, i + 1);
    } else {
      assert groups[..i] == groups;
    }
  }

  // ----- Double entry -----

  function Balance(entries: seq<Entry>): int {
    if entries == [] then 0 else Balance(entries[..|entries| - 1]) + entries[|entries| - 1].amount
  }

  lemma {:induction false} BalanceConcat(a: seq<Entry>, b: seq<Entry>)
    ensures Balance(a + b) == Balance(a) + Balance(b)
    decreases |b|
  {
    if b == [] {
      assert a + b == a;
    } else {
      assert (a + b)[..|a + b| - 1] == a + b[..|b| - 1];
      BalanceConcat(a, b[..|b| - 1]);
    }
  }

  lemma BalanceOne(e: Entry)
    ensures Balance([e]) == e.amount
  {
    assert [e][..0] == [];
  }

  function GroupsTotal(groups: seq<TaxGroup>): int {
    if groups == [] then 0 else TaxTotal(groups[0]) + GroupsTotal(groups[1..])
  }

  lemma {:induction false} AddTaxTotal(groups: seq<TaxGroup>, l: Line)
    ensures GroupsTotal(AddTax(groups, l)) == GroupsTotal(groups) + l.cgst + l.sgst + l.igst
  {
    if groups != [] {
      if groups[0].gstRate == l.gstRate {
        assert AddTax(groups, l)[1..] == groups[1..];
      } else {
        AddTaxTotal(groups[1..], l);
        assert AddTax(groups, l)[1..] == AddTax(groups[1..], l);
      }
    } else {
      assert AddTax(groups, l)[1..] == [];
    }
  }

  /** Grouping by rate neither loses nor invents tax. */
  lemma {:induction false} GroupingConservesTax(lines: seq<Line>)
    ensures GroupsTotal(GroupTaxes(lines)) == Sum(lines, Cgst) + Sum(lines, Sgst) + Sum(lines, Igst)
    decreases |lines|
  {
    hide AddTax;
    if lines != [] {
      GroupingConservesTax(lines[..|lines| - 1]);
      AddTaxTotal(GroupTaxes(lines[..|lines| - 1]), lines[|lines| - 1]);
    }
  }

  /** The lines of one GST rate. */
  function AtRate(lines: seq<Line>, gstRate: int): seq<Line> {
    if lines == [] then []
    else
      AtRate(lines[..|lines| - 1], gstRate)
      + (if lines[|lines| - 1].gstRate == gstRate then [lines[|lines| - 1]] else [])
  }

  function GroupAmount(g: TaxGroup, c: Column): int {
    match c
    case Taxable => 0
    case Cgst => g.cgst
    case Sgst => g.sgst
    case Igst => g.igst
  }

  /** What the groups of one rate hold in a tax column. */
  function TotalAt(groups: seq<TaxGroup>, gstRate: int, c: Column): int {
    if groups == [] then 0
    else (if groups[0].gstRate == gstRate then GroupAmount(groups[0], c) else 0) + TotalAt(groups[1..], gstRate, c)
  }

  ghost predicate DistinctRates(groups: seq<TaxGroup>) {
    forall i, j :: 0 <= i < j < |groups| ==> groups[i].gstRate != groups[j].gstRate
  }

  lemma SumSnoc(lines: seq<Line>, l: Line, c: Column)
    ensures Sum(lines + [l], c) == Sum(lines, c) + Amount(l, c)
  {
    assert (lines + [l])[..|lines|] == lines;
  }

  lemma {:induction false} AddTaxAt(groups: seq<TaxGroup>, l: Line, gstRate: int, c: Column)
    requires c != Taxable
    ensures TotalAt(AddTax(groups, l), gstRate, c)
         == TotalAt(groups, gstRate, c) + (if l.gstRate == gstRate then Amount(l, c) else 0)
  {
    if groups == [] {
      assert AddTax(groups, l)[1..] == [];
    } else if groups[0].gstRate == l.gstRate {
      assert AddTax(groups, l)[1..] == groups[1..];
    } else {
      AddTaxAt(groups[1..], l, gstRate, c);
      assert AddTax(groups, l)[1..] == AddTax(groups[1..], l);
    }
  }

  ghost function Rates(groups: seq<TaxGroup>): (r: seq<int>)
    ensures |r| == |groups|
  {
    seq(|groups|, i requires 0 <= i < |groups| => groups[i].gstRate)
  }

  /** No group changes its rate or its place; a new rate comes last. */
  lemma {:induction false} AddTaxAppends(groups: seq<TaxGroup>, l: Line)
    ensures Rates(AddTax(groups, l)) ==
            if l.gstRate in Rates(groups) then Rates(groups) else Rates(groups) + [l.gstRate]
  {
    if groups == [] {
    } else if groups[0].gstRate == l.gstRate {
      assert Rates(groups)[0] == l.gstRate;
    } else {
      AddTaxAppends(groups[1..], l);
      RatesCons(groups[0], groups[1..]);
      RatesCons(groups[0], AddTax(groups[1..], l));
      assert groups == [groups[0]] + groups[1..];
    }
  }

  lemma RatesCons(g: TaxGroup, rest: seq<TaxGroup>)
    ensures Rates([g] + rest) == [g.gstRate] + Rates(rest)
  {
  }

  lemma AddTaxRates(groups: seq<TaxGroup>, l: Line)
    requires DistinctRates(groups)
    ensures DistinctRates(AddTax(groups, l))
  {
    hide AddTax;
    AddTaxAppends(groups, l);
    var after, rates := AddTax(groups, l), Rates(groups);
    forall i, j | 0 <= i < j < |after|
      ensures after[i].gstRate != after[j].gstRate
    {
      assert Rates(after)[i] == after[i].gstRate && Rates(after)[j] == after[j].gstRate;
      assert i < |groups| && rates[i] == groups[i].gstRate;
      assert j < |groups| ==> rates[j] == groups[j].gstRate;
    }
  }

  lemma {:induction false} OnlyGroupAt(groups: seq<TaxGroup>, i: nat, c: Column)
    requires DistinctRates(groups) && i < |groups|
    ensures TotalAt(groups, groups[i].gstRate, c) == GroupAmount(groups[i], c)
  {
    if i == 0 {
      NoGroupAt(groups[1..], groups[0].gstRate, c);
    } else {
      assert DistinctRates(groups[1..]);
      OnlyGroupAt(groups[1..], i - 1, c);
    }
  }

  lemma {:induction false} NoGroupAt(groups: seq<TaxGroup>, gstRate: int, c: Column)
    requires forall i :: 0 <= i < |groups| ==> groups[i].gstRate != gstRate
    ensures TotalAt(groups, gstRate, c) == 0
  {
    if groups != [] {
      NoGroupAt(groups[1..], gstRate, c);
    }
  }

  lemma {:induction false} GroupsAtRate(lines: seq<Line>, gstRate: int, c: Column)
    requires c != Taxable
    ensures TotalAt(GroupTaxes(lines), gstRate, c) == Sum(AtRate(lines, gstRate), c)
    ensures DistinctRates(GroupTaxes(lines))
    decreases |lines|
  {
    hide AddTax, Amount;
    if lines != [] {
      var init, last := lines[..|lines| - 1], lines[|lines| - 1];
      GroupsAtRate(init, gstRate, c);
      AddTaxAt(GroupTaxes(init), last, gstRate, c);
      AddTaxRates(GroupTaxes(init), last);
      SumSnoc(AtRate(init, gstRate), last, c);
      assert AtRate(init, gstRate) + [] == AtRate(init, gstRate);
    }
  }

  /** There is one group a rate, and it holds exactly the taxes of the lines at that rate. */
  lemma GroupsMatchLines(lines: seq<Line>, i: nat)
    requires i < |GroupTaxes(lines)|
    ensures var g, own := GroupTaxes(lines)[i], AtRate(lines, GroupTaxes(lines)[i].gstRate);
      g.cgst == Sum(own, Cgst) && g.sgst == Sum(own, Sgst) && g.igst == Sum(own, Igst)
    ensures DistinctRates(GroupTaxes(lines))
  {
    hide GroupTaxes, AtRate, Sum;
    var groups := GroupTaxes(lines);
    forall c: Column | c != Taxable
      ensures GroupAmount(groups[i], c) == Sum(AtRate(lines, groups[i].gstRate), c)
    {
      GroupsAtRate(lines, groups[i].gstRate, c);
      OnlyGroupAt(groups, i, c);
    }
    assert GroupAmount(groups[i], Cgst) == groups[i].cgst;
    assert GroupAmount(groups[i], Sgst) == groups[i].sgst;
    assert GroupAmount(groups[i], Igst) == groups[i].igst;
    GroupsAtRate(lines, 0, Cgst);
  }

  // ----- What is not posted -----

  function Shortfall(total: int): nat {
    if total < 0 then -total else 0
  }

  /** The negative totals, which the generator leaves out. */
  function GroupsShortfall(groups: seq<TaxGroup>): nat {
    if groups == [] then 0
    else
      GroupsShortfall(groups[..|groups| - 1])
      + Shortfall(groups[|groups| - 1].cgst) + Shortfall(groups[|groups| - 1].sgst)
      + Shortfall(groups[|groups| - 1].igst)
  }

  function TaxShortfall(kind: Kind, s: Summary): nat {
    if SalesSide(kind) then GroupsShortfall(GroupTaxes(s.lines)) else Shortfall(s.cgst) + Shortfall(s.sgst)
  }

  lemma TaxEntryBalance(kind: Kind, ledger: string, total: int)
    ensures Balance(TaxEntry(kind, ledger, total)) == Sign(kind) * (total + Shortfall(total))
  {
    BalanceOne(Entry(ledger, Sign(kind) * total));
  }

  lemma GroupEntriesBalance(kind: Kind, ledgers: Ledgers, g: TaxGroup)
    requires GroupEntries(kind, ledgers, g).Some?
    ensures Balance(GroupEntries(kind, ledgers, g).value)
         == Sign(kind) * (TaxTotal(g) + Shortfall(g.cgst) + Shortfall(g.sgst) + Shortfall(g.igst))
  {
    hide TaxEntry, Balance;
    var a, b, c := TaxEntry(kind, ledgers.cgst, g.cgst), TaxEntry(kind, ledgers.sgst, g.sgst),
      TaxEntry(kind, ledgers.igst.GetOr(""), g.igst);
    TaxEntryBalance(kind, ledgers.cgst, g.cgst);
    TaxEntryBalance(kind, ledgers.sgst, g.sgst);
    TaxEntryBalance(kind, ledgers.igst.GetOr(""), g.igst);
    BalanceConcat(a, b);
    BalanceConcat(a + b, c);
  }

  lemma {:induction false} GroupsTotalSnoc(groups: seq<TaxGroup>, g: TaxGroup)
    ensures GroupsTotal(groups + [g]) == GroupsTotal(groups) + TaxTotal(g)
  {
    if groups == [] {
      assert ([g])[1..] == [] && groups + [g] == [g];
    } else {
      assert (groups + [g])[1..] == groups[1..] + [g];
      GroupsTotalSnoc(groups[1..], g);
    }
  }

  lemma {:induction false} AllGroupsBalance(kind: Kind, ledgers: map<int, Ledgers>, groups: seq<TaxGroup>)
    requires AllGroupEntries(kind, ledgers, groups).Some?
    ensures Balance(AllGroupEntries(kind, ledgers, groups).value)
         == Sign(kind) * (GroupsTotal(groups) + GroupsShortfall(groups))
    decreases |groups|
  {
    hide GroupEntries, Balance, TaxTotal, GroupsTotal, Shortfall;
    if groups == [] {
      NothingToBalance();
    } else {
      var init, g := groups[..|groups| - 1], groups[|groups| - 1];
      assert groups == init + [g];
      AllGroupsBalance(kind, ledgers, init);
      GroupEntriesBalance(kind, SalesLedgers(ledgers, g.gstRate).value, g);
      BalanceConcat(AllGroupEntries(kind, ledgers, init).value,
          GroupEntries(kind, SalesLedgers(ledgers, g.gstRate).value, g).value);
      GroupsTotalSnoc(init, g);
    }
  }

  lemma NothingToBalance()
    ensures Balance([]) == 0 && GroupsTotal([]) == 0
  {
  }

  lemma {:induction false} LinesBalance(kind: Kind, settings: Settings, lines: seq<Line>)
    requires LineEntries(kind, settings, lines).Some?
    ensures Balance(LineEntries(kind, settings, lines).value) == Sign(kind) * Sum(lines, Taxable)
    decreases |lines|
  {
    hide Balance;
    if lines == [] {
      NothingToBalance();
    } else {
      var init, l := lines[..|lines| - 1], lines[|lines| - 1];
      LinesBalance(kind, settings, init);
      var entries := LineEntries(kind, settings, lines).value;
      var last := entries[|entries| - 1];
      assert entries == LineEntries(kind, settings, init).value + [last];
      BalanceOne(last);
      BalanceConcat(LineEntries(kind, settings, init).value, [last]);
    }
  }

  /** A summary whose parts add up, with no integrated tax on a purchase. */
  ghost predicate Consistent(kind: Kind, s: Summary) {
    && s.cgst == Sum(s.lines, Cgst) && s.sgst == Sum(s.lines, Sgst) && s.igst == Sum(s.lines, Igst)
    && s.final == Sum(s.lines, Taxable) + s.cgst + s.sgst + s.igst + s.roundOff
    && (!SalesSide(kind) ==> s.igst == 0)
  }

  lemma TaxesBalance(kind: Kind, settings: Settings, s: Summary)
    requires Consistent(kind, s) && TaxEntries(kind, settings, s).Some?
    ensures Balance(TaxEntries(kind, settings, s).value)
         == Sign(kind) * (s.cgst + s.sgst + s.igst + TaxShortfall(kind, s))
  {
    hide Balance, TaxEntry, GroupTaxes, AllGroupEntries, GroupsTotal, GroupsShortfall, Sum;
    if SalesSide(kind) {
      AllGroupsBalance(kind, settings.salesLedgers, GroupTaxes(s.lines));
      GroupingConservesTax(s.lines);
    } else {
      var a, b := TaxEntry(kind, settings.cgst.GetOr(""), s.cgst), TaxEntry(kind, settings.sgst.GetOr(""), s.sgst);
      TaxEntryBalance(kind, settings.cgst.GetOr(""), s.cgst);
      TaxEntryBalance(kind, settings.sgst.GetOr(""), s.sgst);
      BalanceConcat(a, b);
    }
  }

  /** The entries are out of balance by exactly the negative tax totals that are not posted. */
  lemma VoucherBalance(kind: Kind, settings: Settings, party: string, s: Summary)
    requires Consistent(kind, s) && VoucherEntries(kind, settings, party, s).Some?
    ensures Balance(VoucherEntries(kind, settings, party, s).value) == Sign(kind) * TaxShortfall(kind, s)
  {
    hide Balance, LineEntries, TaxEntries, Sum, TaxShortfall;
    var first := Entry(party, -Sign(kind) * s.final);
    var lines, taxes := LineEntries(kind, settings, s.lines).value, TaxEntries(kind, settings, s).value;
    var roundOff := RoundOffEntries(kind, settings, s).value;
    BalanceOne(first);
    LinesBalance(kind, settings, s.lines);
    TaxesBalance(kind, settings, s);
    RoundOffBalance(kind, settings, s);
    BalanceConcat([first], lines);
    BalanceConcat([first] + lines, taxes);
    BalanceConcat([first] + lines + taxes, roundOff);
  }

  lemma RoundOffBalance(kind: Kind, settings: Settings, s: Summary)
    requires RoundOffEntries(kind, settings, s).Some?
    ensures Balance(RoundOffEntries(kind, settings, s).value) == Sign(kind) * s.roundOff
  {
    if s.roundOff != 0 {
      BalanceOne(RoundOffEntries(kind, settings, s).value[0]);
    }
  }

  // ----- From the batch to the voucher -----

  lemma {:induction false} NoIgst(terms: Terms, lines: seq<Line>)
    requires forall l <- lines :: l.igst == 0
    ensures Sum(lines, Igst) == 0
    decreases |lines|
  {
    if lines != [] {
      var init := lines[..|lines| - 1];
      assert lines[|lines| - 1] in lines && forall l <- init :: l in lines;
      NoIgst(terms, init);
    }
  }

  lemma SummaryConsistent(terms: Terms, groups: seq<Group>)
    ensures Consistent(terms.kind, Summarize(LinesOf(terms, groups)))
  {
    hide RoundHalfUp, Percent, SaleTaxable, Sum;
    if !SalesSide(terms.kind) {
      NoIgst(terms, LinesOf(terms, groups));
    }
  }

  ghost predicate NoNegativeTax(kind: Kind, s: Summary) {
    if SalesSide(kind) then forall g <- GroupTaxes(s.lines) :: g.cgst >= 0 && g.sgst >= 0 && g.igst >= 0
    else s.cgst >= 0 && s.sgst >= 0
  }

  lemma {:induction false} GroupsShortfallZero(groups: seq<TaxGroup>)
    ensures GroupsShortfall(groups) == 0 <==> forall g <- groups :: g.cgst >= 0 && g.sgst >= 0 && g.igst >= 0
    decreases |groups|
  {
    if groups != [] {
      var init := groups[..|groups| - 1];
      assert groups == init + [groups[|groups| - 1]];
      GroupsShortfallZero(init);
      assert groups[|groups| - 1] in groups && forall g <- init :: g in groups;
    }
  }

  /** A generated voucher balances exactly when no tax total is negative. */
  lemma BalancedExactly(terms: Terms, groups: seq<Group>, settings: Settings, party: string)
    requires VoucherEntries(terms.kind, settings, party, Summarize(LinesOf(terms, groups))).Some?
    ensures var s := Summarize(LinesOf(terms, groups));
      Balance(VoucherEntries(terms.kind, settings, party, s).value) == 0 <==> NoNegativeTax(terms.kind, s)
  {
    hide Summarize, LinesOf, VoucherEntries, Balance, GroupTaxes, GroupsShortfall;
    var s := Summarize(LinesOf(terms, groups));
    SummaryConsistent(terms, groups);
    VoucherBalance(terms.kind, settings, party, s);
    GroupsShortfallZero(GroupTaxes(s.lines));
  }

  // ----- Ordinary prices and rates -----

  /** No negative price or rate, and no discount above 100 per cent. */
  predicate Ordinary(terms: Terms, g: Group) {
    && g.rate >= 0 && 0 <= g.discount <= 10_000 && g.gstRate >= 0
    && terms.cgst.GetOr(0) >= 0 && terms.sgst.GetOr(0) >= 0 && terms.igst.GetOr(0) >= 0
  }

  lemma RoundNonNegative(num: int, den: nat)
    requires den > 0 && num >= 0
    ensures RoundHalfUp(num, den) >= 0
  {
  }

  lemma PercentBounds(amount: int, rate: int)
    requires amount >= 0 && rate >= 0
    ensures 0 <= Percent(amount, rate)
    ensures rate <= 10_000 ==> Percent(amount, rate) <= amount
  {
    assert amount * rate >= 0;
    if rate <= 10_000 {
      assert amount * rate <= amount * 10_000;
      RoundAtMost(amount * rate, amount);
    }
  }

  lemma RoundAtMost(num: int, whole: int)
    requires 0 <= num <= whole * 10_000
    ensures RoundHalfUp(num, 10_000) <= whole
  {
  }

  lemma LineNonNegative(terms: Terms, g: Group)
    requires Ordinary(terms, g)
    ensures var l := LineOf(terms, g); l.cgst >= 0 && l.sgst >= 0 && l.igst >= 0
  {
    hide Percent, RoundHalfUp;
    assert g.rate * g.quantity >= 0;
    PercentBounds(g.rate * g.quantity, if SalesSide(terms.kind) then g.discount else 0);
    var amount := LineAmount(terms, g);
    forall rate: int | rate >= 0
      ensures SaleTaxable(amount, rate) >= 0 && RoundHalfUp(rate, 2) >= 0
    {
      RoundNonNegative(amount * 10_000, 10_000 + rate);
      RoundNonNegative(rate, 2);
    }
    forall taxable: int, rate: int | taxable >= 0 && rate >= 0
      ensures Percent(taxable, rate) >= 0
    {
      PercentBounds(taxable, rate);
    }
  }

  lemma {:induction false} SumNonNegative(lines: seq<Line>, c: Column)
    requires forall l <- lines :: Amount(l, c) >= 0
    ensures Sum(lines, c) >= 0
    decreases |lines|
  {
    if lines != [] {
      var init := lines[..|lines| - 1];
      assert lines[|lines| - 1] in lines && forall l <- init :: l in lines;
      SumNonNegative(init, c);
    }
  }

  lemma {:induction false} AtRateSubset(lines: seq<Line>, gstRate: int)
    ensures forall l <- AtRate(lines, gstRate) :: l in lines
    decreases |lines|
  {
    if lines != [] {
      var init := lines[..|lines| - 1];
      AtRateSubset(init, gstRate);
      assert forall l <- init :: l in lines;
    }
  }

  /** The vouchers of batches with ordinary prices and rates always balance. */
  lemma OrdinaryVouchersBalance(terms: Terms, groups: seq<Group>, settings: Settings, party: string)
    requires forall g <- groups :: Ordinary(terms, g)
    requires VoucherEntries(terms.kind, settings, party, Summarize(LinesOf(terms, groups))).Some?
    ensures Balance(VoucherEntries(terms.kind, settings, party, Summarize(LinesOf(terms, groups))).value) == 0
  {
    hide LineOf, VoucherEntries, Balance, GroupTaxes, AtRate, Sum;
    var lines := LinesOf(terms, groups);
    forall l <- lines
      ensures l.cgst >= 0 && l.sgst >= 0 && l.igst >= 0
    {
      var i :| 0 <= i < |lines| && lines[i] == l;
      LineNonNegative(terms, groups[i]);
    }
    forall c: Column | c != Taxable
      ensures Sum(lines, c) >= 0
    {
      SumNonNegative(lines, c);
    }
    forall g <- GroupTaxes(lines)
      ensures g.cgst >= 0 && g.sgst >= 0 && g.igst >= 0
    {
      var i :| 0 <= i < |GroupTaxes(lines)| && GroupTaxes(lines)[i] == g;
      GroupsMatchLines(lines, i);
      AtRateSubset(lines, g.gstRate);
      SumNonNegative(AtRate(lines, g.gstRate), Cgst);
      SumNonNegative(AtRate(lines, g.gstRate), Sgst);
      SumNonNegative(AtRate(lines, g.gstRate), Igst);
    }
    BalancedExactly(terms, groups, settings, party);
  }
}
