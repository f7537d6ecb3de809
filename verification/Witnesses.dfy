/**
 Inputs at which a promised property fails: for each property of the other modules that holds only
 under a condition, one input that does not meet it.
 */
module Witnesses {
  import opened Options
  import opened CanonicalJson
  import opened StockTypes
  import DraftBatches
  import E = EnvFile
  import EnvText
  import EventEnvelope
  import Fefo
  import N = OutboxRuns
  import O = Outbox
  import Replacement
  import S = StockRuns
  import StockTheorems
  import T = OutboxTheorems
  import TallySync
  import Text
  import Transfers
  import V = Voucher

  // ----- A voucher out of balance -----

  /** A unit at 100.00 whose product carries a GST rate of -5 per cent. */
  const NEGATIVE_RATE := V.Group(1, 10_000, 0, -500)

  function PurchaseTerms(kind: V.Kind): V.Terms {
    V.Terms(kind, false, None, None, None)
  }

  /** With its ledger configured, the purchase is posted 5.00 out of balance: neither tax total is posted. */
  lemma UnbalancedPurchase(kind: V.Kind, settings: V.Settings, party: string)
    requires !V.SalesSide(kind) && settings.purchase.Some? && party != ""
    ensures var s := V.Summarize(V.LinesOf(PurchaseTerms(kind), [NEGATIVE_RATE]));
            && V.VoucherEntries(kind, settings, party, s).Some?
            && V.Balance(V.VoucherEntries(kind, settings, party, s).value) == -500
            && !V.NoNegativeTax(kind, s)
  {
    hide V.Balance, V.Sum, V.LineOf, V.TaxShortfall, V.LineEntries;
    var lines := V.LinesOf(PurchaseTerms(kind), [NEGATIVE_RATE]);
    NegativeLine(kind);
    assert lines == [V.Line(-500, 10_000, -250, -250, 0)];
    OneLineSums(lines[0]);
    var s := V.Summarize(lines);
    assert V.LineEntries(kind, settings, lines) == Some([V.Entry(settings.purchase.value, -10_000)]) by {
      OneLineEntry(kind, settings, lines[0]);
    }
    V.SummaryConsistent(PurchaseTerms(kind), [NEGATIVE_RATE]);
    V.VoucherBalance(kind, settings, party, s);
    assert V.TaxShortfall(kind, s) == 500 by { PurchaseShortfall(kind, s); }
  }

  lemma NegativeLine(kind: V.Kind)
    requires !V.SalesSide(kind)
    ensures V.LineOf(PurchaseTerms(kind), NEGATIVE_RATE) == V.Line(-500, 10_000, -250, -250, 0)
  {
  }

  lemma OneLineSums(l: V.Line)
    ensures V.Sum([l], V.Taxable) == l.taxable && V.Sum([l], V.Cgst) == l.cgst
    ensures V.Sum([l], V.Sgst) == l.sgst && V.Sum([l], V.Igst) == l.igst
  {
    assert [l][..0] == [];
  }

  lemma OneLineEntry(kind: V.Kind, settings: V.Settings, l: V.Line)
    requires !V.SalesSide(kind) && settings.purchase.Some?
    ensures V.LineEntries(kind, settings, [l]) == Some([V.Entry(settings.purchase.value, -l.taxable)])
  {
    assert [l][..0] == [] && V.LineEntries(kind, settings, []) == Some([]);
    assert [] + [V.Entry(settings.purchase.value, -l.taxable)] == [V.Entry(settings.purchase.value, -l.taxable)];
  }

  lemma PurchaseShortfall(kind: V.Kind, s: V.Summary)
    requires !V.SalesSide(kind) && s.cgst == s.sgst == -250
    ensures V.TaxShortfall(kind, s) == 500
  {
  }

  // ----- A franchise code that can connect once -----

  /** Connect as "A-", with no stock to list. */
  function ConnectAs(code: string, eventId: string): N.Step {
    N.Connecting(code, [], Null, "", [eventId])
  }

  /** The node enrols as "A-" and is then refused under that same code, whatever it sends. */
  lemma DashCodeConnectsOnce(w: O.World, eventId: string, serials: seq<O.SerialRow>, actor: Json, occurredAt: string,
                             ids: seq<string>)
    requires N.Start(w) && EventEnvelope.ShortText(eventId)
    ensures var once := N.Run(w, [ConnectAs("A-", eventId)]);
            && once.lite.code == "A-" && once.lite.events != []
            && !O.IdentityAccepted(once.lite, "A-")
            && N.Run(w, [ConnectAs("A-", eventId), N.Connecting("A-", serials, actor, occurredAt, ids)]) == once
  {
    hide O.IsCode, O.EnqueueInitial, O.ConfiguredCode, N.Valid, N.Enrolled, N.Apply, T.Trimmed;
    var first, again := ConnectAs("A-", eventId), N.Connecting("A-", serials, actor, occurredAt, ids);
    FirstConnection(w, eventId);
    T.RunOne(w, first);
    assert [first, again][..1] == [first];
    var once := N.Run(w, [first]);
    N.RunKeepsValid(w, [first]);
    ValidIsEnrolled(once);
    T.ReconnectAcceptedExactly(once.lite);
    assert !T.Trimmed("A-") by { DashAtTheEnd(); }
    RefusedIdentity(once, again);
  }

  lemma DashAtTheEnd()
    ensures !T.Trimmed("A-")
  {
  }

  lemma ValidIsEnrolled(w: O.World)
    requires N.Valid(w)
    ensures N.Enrolled(w.lite)
  {
    hide N.Enrolled, N.Delivered, N.Tracked;
  }

  lemma RefusedIdentity(w: O.World, s: N.Step)
    requires s.Connecting? && !O.IdentityAccepted(w.lite, s.code)
    ensures N.Apply(w, s) == w
  {
    hide O.IdentityAccepted, O.CursorAccepted, O.EnqueueInitial;
  }

  lemma CodeA()
    ensures O.IsCode("A-") && O.ConfiguredCode("A-") == Some("A")
  {
    hide O.NormalizeCode;
    assert O.IsCode("A-");
    T.NormalizeCodeOfCode("A-");
    assert "A-"[..1] == "A";
    assert O.TrimDashesRight("A-") == O.TrimDashesRight("A") == "A";
  }

  lemma FirstConnection(w: O.World, eventId: string)
    requires N.Start(w) && EventEnvelope.ShortText(eventId)
    ensures N.Apply(w, ConnectAs("A-", eventId)).lite.code == "A-"
    ensures N.Apply(w, ConnectAs("A-", eventId)).lite.events != []
  {
    hide O.IsCode, O.EnqueueInitial, O.ConfiguredCode;
    CodeA();
    EmptyBaselineQueued(w.lite.(code := "A-"), eventId);
  }

  lemma EmptyBaselineQueued(lite: O.Lite, eventId: string)
    requires lite.events == [] && O.ConfiguredCode(lite.code) == Some("A") && EventEnvelope.ShortText(eventId)
    ensures O.EnqueueInitial(lite, [], Null, "", [eventId]).Some?
    ensures O.EnqueueInitial(lite, [], Null, "", [eventId]).value.events != []
    ensures O.EnqueueInitial(lite, [], Null, "", [eventId]).value.code == lite.code
  {
    hide O.ConfiguredCode, O.Frozen, EventEnvelope.ShortText, O.EmptyRequest, O.Insert;
    MarkerInserted(eventId);
  }

  lemma MarkerInserted(eventId: string)
    requires EventEnvelope.ShortText(eventId)
    ensures var r := O.EmptyRequest(EventEnvelope.Baseline("A", Null, ""), eventId);
            O.Insert([], r) == Some([O.Frozen(r, 1)])
  {
    hide EventEnvelope.FrozenEventJson, CanonicalJson.Size, O.HasEventId, EventEnvelope.ItemCount,
         EventEnvelope.InitialPayload, O.Insert;
    var reference := EventEnvelope.ReferencePrefix("A") + "EMPTY";
    assert |reference| <= 150;
    NoEventYet(eventId);
    EventEnvelope.EmptyMarkerSize(reference, Null, eventId, "");
    EventEnvelope.InitialItemCount(reference, Null, []);
    var r := O.EmptyRequest(EventEnvelope.Baseline("A", Null, ""), eventId);
    T.InsertAccepts([], r);
    N.InsertIsSnoc([], r);
    assert [] + [O.Frozen(r, 1)] == [O.Frozen(r, 1)];
  }

  lemma NoEventYet(eventId: string)
    ensures !O.HasEventId([], eventId)
  {
  }

  // ----- An update that is not read back -----

  /** The file holds the key twice; the first line is rewritten, and readers take the second. */
  lemma ShadowedUpdateIsLost(r: E.Reader, key: string, one: string, two: string, update: string)
    requires E.WellFormedKey(key) && EnvText.OneLine(one) && EnvText.OneLine(two) && EnvText.OneLine(update)
    ensures var oldText := Text.Join([E.Assignment(key, one), E.Assignment(key, two)], '\n') + "\n";
            var lines := E.Written(EnvText.SplitLines(oldText), [key], map[key := update]);
            E.Lookup(E.ReadLines(r, EnvText.SplitLines(E.FileText(lines))), key) == Some(two)
  {
    hide E.WellFormedKey, EnvText.OneLine, EnvText.SplitLines, Text.Join, E.Assignment, E.ReadLines, E.ParseLine,
         E.FileText, E.Written, E.Shadowed;
    var lines := [E.Assignment(key, one), E.Assignment(key, two)];
    assert EnvText.OneLine(key) by { KeyIsOneLine(key); }
    E.AssignmentOneLine(key, one);
    E.AssignmentOneLine(key, two);
    EnvText.SplitLinesJoin(lines);
    var oldText := Text.Join(lines, '\n') + "\n";
    var updates := map[key := update];
    E.EnvRoundTrip(r, oldText, [key], updates);
    TwiceIsShadowed(r, key, one, two);
    LastLineDecides(r, key, one, two);
  }

  lemma KeyIsOneLine(key: string)
    requires E.WellFormedKey(key)
    ensures EnvText.OneLine(key)
  {
  }

  lemma TwiceIsShadowed(r: E.Reader, key: string, one: string, two: string)
    requires E.WellFormedKey(key)
    ensures E.Shadowed(r, [E.Assignment(key, one), E.Assignment(key, two)], key)
  {
    hide E.WellFormedKey, E.Assignment, E.ParseLine;
    E.AssignmentReadBack(E.Deploy, key, one);
    E.AssignmentReadBack(r, key, two);
    var lines := [E.Assignment(key, one), E.Assignment(key, two)];
    assert E.FirstWritten(lines, key, 0) && E.Defines(r, lines[1], key);
  }

  lemma LastLineDecides(r: E.Reader, key: string, one: string, two: string)
    requires E.WellFormedKey(key)
    ensures E.Lookup(E.ReadLines(r, [E.Assignment(key, one), E.Assignment(key, two)]), key) == Some(two)
  {
    hide E.WellFormedKey, E.Assignment, E.ParseLine, E.ReadLines;
    E.AssignmentReadBack(r, key, two);
    assert [E.Assignment(key, one)] + [E.Assignment(key, two)] == [E.Assignment(key, one), E.Assignment(key, two)];
    E.ReadLinesSnoc(r, [E.Assignment(key, one)], E.Assignment(key, two));
  }

  // ----- A draft that can no longer be submitted -----

  function OldLabel(): string {
    "SQR-" + seq(32, i => 'A')
  }

  function NewLabel(): string {
    "SQR-" + seq(32, i => 'B')
  }

  /** A node with one labelled unit. */
  function OneUnit(status: SerialStatus): Stock {
    Stock(map[0 := Unit(status)], 1, map[], [])
  }

  function Unit(status: SerialStatus): Serial {
    Serial(OldLabel(), 0, status, status, true, None, None, None, 0, None, None, None)
  }

  function Holding(status: SerialStatus, batch: Batch): Stock {
    OneUnit(status).(batches := map[0 := batch])
  }

  lemma LabelsAsPrinted()
    ensures Normalize(OldLabel()) == OldLabel() && OldLabel() != NewLabel() && Replacement.IsMasterSerial(NewLabel())
  {
    EnvText.StripIdentity(OldLabel());
    assert forall i :: 0 <= i < |OldLabel()| ==> Text.FoldCase(OldLabel()[i]) == OldLabel()[i];
    assert OldLabel()[4] == 'A' && NewLabel()[4] == 'B';
    assert forall c <- NewLabel()[4..] :: c == 'B';
  }

  lemma OnlyUnitFound(status: SerialStatus, batches: map<nat, Batch>)
    ensures Lookup(OneUnit(status).(batches := batches).serials, OldLabel()) == Some(0)
  {
    assert OneUnit(status).serials[0].number == OldLabel();
  }

  function Draft(kind: BatchType, items: seq<nat>, verified: set<nat>): Batch {
    Batch(kind, true, "", items, [], verified)
  }

  lemma TwoSteps(st: Stock, a: S.Step, b: S.Step)
    ensures S.Run(st, [a, b]) == S.Next(S.Next(st, a), b)
  {
    hide S.Next;
    assert S.Run(st, []) == st;
    OneMore(st, [], a);
    OneMore(st, [a], b);
    assert [] + [a] == [a] && [a] + [b] == [a, b];
  }

  lemma OneMore(st: Stock, steps: seq<S.Step>, s: S.Step)
    ensures S.Run(st, steps + [s]) == S.Next(S.Run(st, steps), s)
  {
    hide S.Next;
    assert (steps + [s])[..|steps|] == steps;
  }

  lemma Opened(status: SerialStatus, kind: BatchType)
    ensures S.Next(OneUnit(status), S.Creating(0, kind, "")) == Holding(status, Draft(kind, [], {}))
  {
    hide Unit;
  }

  lemma OnlyUnitIsEarliest(status: SerialStatus, kind: BatchType)
    ensures Fefo.FefoAllows(Holding(status, Draft(kind, [], {})), kind, 0)
  {
    hide Unit, Fefo.Ordered, Fefo.Available;
    var st := Holding(status, Draft(kind, [], {}));
    var offered := Fefo.Available(st, st.serials[0].product, Fefo.FefoStatuses(kind));
    Fefo.OrderedIsSorted(st.serials, offered);
    var candidates := Fefo.Candidates(st, st.serials[0].product, 1, Fefo.FefoStatuses(kind));
    if candidates != [] {
      assert candidates[0] in offered;
      assert candidates[0] == 0;
    }
  }

  lemma Scanned(status: SerialStatus, kind: BatchType)
    requires DraftBatches.Admissible(Unit(status), kind)
    ensures S.Next(Holding(status, Draft(kind, [], {})), S.Scanning(0, OldLabel(), true))
         == Holding(status, Draft(kind, [0], {}))
  {
    hide DraftBatches.Scan, Holding, OldLabel, Unit, DraftBatches.Admissible;
    ScanAccepted(status, kind);
  }

  lemma ScanAccepted(status: SerialStatus, kind: BatchType)
    requires DraftBatches.Admissible(Unit(status), kind)
    ensures DraftBatches.Scan(Holding(status, Draft(kind, [], {})), 0, OldLabel(), true)
         == Some(Holding(status, Draft(kind, [0], {})))
  {
    hide Unit, DraftBatches.AddSerial, DraftBatches.Admissible, Normalize, OldLabel, Lookup;
    LabelsAsPrinted();
    OnlyUnitFound(status, map[0 := Draft(kind, [], {})]);
    assert Lookup(Holding(status, Draft(kind, [], {})).serials, OldLabel()) == Some(0);
    AddAccepted(status, kind);
  }

  lemma AddAccepted(status: SerialStatus, kind: BatchType)
    requires DraftBatches.Admissible(Unit(status), kind)
    ensures DraftBatches.AddSerial(Holding(status, Draft(kind, [], {})), 0, 0)
         == Some(Holding(status, Draft(kind, [0], {})))
  {
    hide Unit, Fefo.FefoAllows, DraftBatches.Admissible, DraftBatches.InOtherDraft;
    OnlyDraft(status, kind);
    OnlyUnitIsEarliest(status, kind);
    var st := Holding(status, Draft(kind, [], {}));
    assert [] + [0] == [0] && st.batches[0 := Draft(kind, [0], {})] == map[0 := Draft(kind, [0], {})];
  }

  lemma OnlyDraft(status: SerialStatus, kind: BatchType)
    ensures !DraftBatches.InOtherDraft(Holding(status, Draft(kind, [], {})), 0, 0)
  {
    hide Unit;
  }

  lemma OpenedAndScanned(status: SerialStatus, kind: BatchType)
    requires DraftBatches.Admissible(Unit(status), kind)
    ensures S.Run(OneUnit(status), [S.Creating(0, kind, ""), S.Scanning(0, OldLabel(), true)])
         == Holding(status, Draft(kind, [0], {}))
  {
    hide S.Next, S.Run, Holding, OneUnit, Unit, DraftBatches.Admissible;
    TwoSteps(OneUnit(status), S.Creating(0, kind, ""), S.Scanning(0, OldLabel(), true));
    Opened(status, kind);
    Scanned(status, kind);
  }

  lemma OneUnitStarts(status: SerialStatus)
    ensures S.Start(OneUnit(status))
  {
  }

  /** A draft with a unit that is out of use, or on its way and not in an audit, is not submitted. */
  lemma NotSubmitted(st: Stock)
    requires DraftBatches.IsOpen(st, 0) && st.batches[0].items == [0] && 0 in st.serials
    requires !DraftBatches.Admissible(st.serials[0], st.batches[0].kind)
    ensures DraftBatches.Submit(st, 0, true) == None
  {
    hide DraftBatches.Admissible, DraftBatches.Complete, DraftBatches.ApplyItems;
    assert 0 in st.batches[0].items;
  }

  /** The shelf of the scanned unit, verified. */
  function Shelved(location: nat, warehouse: string): Stock {
    Stock(map[0 := DraftBatches.PlaceAt(Unit(Generated), location, warehouse)], 1,
          map[0 := Draft(Purchase, [0], {0})], [])
  }

  lemma Verified(location: nat, warehouse: string)
    ensures S.Next(Holding(Generated, Draft(Purchase, [0], {})), S.Verifying(0, location, warehouse))
         == Shelved(location, warehouse)
  {
    hide Unit, DraftBatches.Unverified, DraftBatches.PlaceAt;
    assert DraftBatches.Unverified(Draft(Purchase, [0], {})) == [0] by { UnitPending(); }
    assert {} + Fefo.Elements([0]) == {0};
    var serials := DraftBatches.Placed(OneUnit(Generated).serials, [0], location, warehouse);
    assert serials == Shelved(location, warehouse).serials;
  }

  lemma UnitPending()
    ensures DraftBatches.Unverified(Draft(Purchase, [0], {})) == [0]
  {
    assert [0][1..] == [] && DraftBatches.Excluding([], {}) == [];
  }

  lemma Relabelled(location: nat, warehouse: string, now: int)
    ensures var st := S.Next(Shelved(location, warehouse), S.Replacing(OldLabel(), NewLabel(), Generated, now));
            st.batches == Shelved(location, warehouse).batches && 0 in st.serials && !st.serials[0].active
  {
    hide Replacement.IsMasterSerial, Normalize;
    LabelsAsPrinted();
    var st := Shelved(location, warehouse);
    assert st.serials[0].number == OldLabel();
    assert Lookup(st.serials, OldLabel()) == Some(0);
  }

  lemma VerifiedIsComplete()
    ensures DraftBatches.Complete(Draft(Purchase, [0], {0}), true) && DraftBatches.Complete(Draft(Sale, [0], {}), true)
  {
    assert [0][1..] == [];
  }

  /** Scanned, verified on its shelf and then relabelled, the one unit of a purchase blocks it. */
  lemma RelabelledUnitBlocksBatch(location: nat, warehouse: string, now: int)
    ensures var steps := [S.Creating(0, Purchase, ""), S.Scanning(0, OldLabel(), true),
                          S.Verifying(0, location, warehouse),
                          S.Replacing(OldLabel(), NewLabel(), Generated, now)];
            var st := S.Run(OneUnit(Generated), steps);
            && S.Start(OneUnit(Generated)) && DraftBatches.IsOpen(st, 0)
            && DraftBatches.Complete(st.batches[0], true)
            && !StockTheorems.AllPresent(st.serials, st.batches[0])
            && DraftBatches.Submit(st, 0, true) == None
  {
    hide S.Next, S.Run, OneUnit, DraftBatches.Complete, DraftBatches.Submit, S.Start;
    var scanned := [S.Creating(0, Purchase, ""), S.Scanning(0, OldLabel(), true)];
    var verifying := S.Verifying(0, location, warehouse);
    var replacing := S.Replacing(OldLabel(), NewLabel(), Generated, now);
    OpenedAndScanned(Generated, Purchase);
    OneMore(OneUnit(Generated), scanned, verifying);
    OneMore(OneUnit(Generated), scanned + [verifying], replacing);
    Verified(location, warehouse);
    Relabelled(location, warehouse, now);
    VerifiedIsComplete();
    OneUnitStarts(Generated);
    assert scanned + [verifying] + [replacing] == [scanned[0], scanned[1], verifying, replacing];
    var st := S.Run(OneUnit(Generated), scanned + [verifying] + [replacing]);
    assert 0 in st.batches[0].items;
    NotSubmitted(st);
  }

  /** The unit has left. */
  lemma Dispatched()
    ensures var st := S.Next(Holding(InStock, Draft(Sale, [0], {})), S.Dispatching([0]));
            st.batches == map[0 := Draft(Sale, [0], {})] && 0 in st.serials && st.serials[0].status == InTransit
  {
    var serials := OneUnit(InStock).serials;
    assert [0][..0] == [] && Transfers.ClaimEach(serials, [], InStock, InTransit) == Some(serials);
    assert Transfers.ClaimEach(serials, [0], InStock, InTransit).Some?;
  }

  /** Scanned for a sale and then sent to another franchise, the one unit blocks the sale. */
  lemma DispatchedUnitBlocksBatch()
    ensures var steps := [S.Creating(0, Sale, ""), S.Scanning(0, OldLabel(), true), S.Dispatching([0])];
            var st := S.Run(OneUnit(InStock), steps);
            && S.Start(OneUnit(InStock)) && DraftBatches.IsOpen(st, 0)
            && DraftBatches.Complete(st.batches[0], true)
            && !StockTheorems.AllPresent(st.serials, st.batches[0])
            && DraftBatches.Submit(st, 0, true) == None
  {
    hide S.Next, S.Run, OneUnit, DraftBatches.Complete, DraftBatches.Submit, S.Start;
    var scanned := [S.Creating(0, Sale, ""), S.Scanning(0, OldLabel(), true)];
    OpenedAndScanned(InStock, Sale);
    OneMore(OneUnit(InStock), scanned, S.Dispatching([0]));
    Dispatched();
    VerifiedIsComplete();
    OneUnitStarts(InStock);
    assert scanned + [S.Dispatching([0])] == [scanned[0], scanned[1], S.Dispatching([0])];
    var st := S.Run(OneUnit(InStock), scanned + [S.Dispatching([0])]);
    assert 0 in st.batches[0].items;
    NotSubmitted(st);
  }

  // ----- A manifest that rewrites a unit -----

  /** A unit that was dispatched, and then confirmed as received elsewhere. */
  function GoneUnit(active: bool): Stock {
    OneUnit(InStock).(
      serials := map[0 := Unit(InStock).(status := InTransit, active := active)],
      ledger := [Txn(TransferOutTxn, 0, InStock, InTransit)])
  }

  lemma SetsOut()
    ensures S.Next(OneUnit(InStock), S.Dispatching([0])) == GoneUnit(true)
  {
    hide Unit, Transfers.ClaimEach;
    Transfers.ClaimEachExactly(OneUnit(InStock).serials, [0], InStock, InTransit);
    assert Transfers.MayMove(OneUnit(InStock).serials, [0], InStock) by { OneUnitMayMove(); }
    assert Transfers.Restatused(OneUnit(InStock).serials, [0], InTransit) == GoneUnit(true).serials;
    assert [] + Transfers.TransferRows(TransferOutTxn, [0], InStock, InTransit) == GoneUnit(true).ledger;
  }

  lemma OneUnitMayMove()
    ensures Transfers.MayMove(OneUnit(InStock).serials, [0], InStock)
  {
  }

  lemma IsConfirmed()
    ensures S.Next(GoneUnit(true), S.Confirming([0])) == GoneUnit(false)
  {
    hide OldLabel;
    assert Transfers.OnTheWay(GoneUnit(true).serials, 0);
    assert Transfers.Departed(GoneUnit(true).serials, [0]) == GoneUnit(false).serials;
  }

  /** What the manifest line makes of the row. */
  function Rewritten(a: Transfers.Arrival): Stock {
    GoneUnit(false).(serials := map[0 := Transfers.Reactivated(GoneUnit(false).serials[0], a)])
  }

  lemma ComesBack(a: Transfers.Arrival, now: int)
    requires a.number == OldLabel() && a.product == 0
    ensures Transfers.Arrive(GoneUnit(false), [a], now) == Some(Rewritten(a))
  {
    hide OldLabel, Transfers.Reactivated, Transfers.ArriveOne;
    var st := GoneUnit(false);
    assert !Transfers.RepeatsNumber([a]);
    assert [a][..0] == [] && Transfers.ArriveAll(st, [], now) == Some(st);
    assert Transfers.ArriveOne(st, a, now) == Some(Rewritten(a)) by { ReturningLine(a, now); }
  }

  lemma ReturningLine(a: Transfers.Arrival, now: int)
    requires a.number == OldLabel() && a.product == 0
    ensures Transfers.ArriveOne(GoneUnit(false), a, now) == Some(Rewritten(a))
  {
    hide OldLabel, Transfers.Reactivated;
    var st := GoneUnit(false);
    assert st.serials[0].number == OldLabel();
    assert Lookup(st.serials, OldLabel()) == Some(0);
    assert st.serials[0 := Transfers.Reactivated(st.serials[0], a)] == Rewritten(a).serials;
  }

  lemma Disagrees(a: Transfers.Arrival)
    requires a.number == OldLabel() && (a.lot.Some? || a.mfgDate.Some? || a.expiry.Some?)
    ensures !StockTheorems.ManifestAgrees(GoneUnit(false).serials, [a])
  {
    hide OldLabel;
    assert StockTheorems.LineFor([a], GoneUnit(false).serials[0].number) == Some(a);
  }

  /**
   Sent away and confirmed, the one unit, recorded without lot or dates, comes back on a manifest that
   names some: the manifest is accepted and the row now says what the manifest says.
   */
  lemma ManifestOverwritesLot(a: Transfers.Arrival, now: int)
    requires a.number == OldLabel() && a.product == 0 && (a.lot.Some? || a.mfgDate.Some? || a.expiry.Some?)
    ensures var away := S.Run(OneUnit(InStock), [S.Dispatching([0]), S.Confirming([0])]);
            var st := S.Run(OneUnit(InStock), [S.Dispatching([0]), S.Confirming([0]), S.Arriving([a], now)]);
            && S.Start(OneUnit(InStock))
            && Transfers.Arrive(away, [a], now) == Some(st)
            && !StockTheorems.ManifestAgrees(away.serials, [a])
            && 0 in st.serials && StockTheorems.LotOf(st.serials[0]) == StockTheorems.ArrivalLot(a)
            && !Replacement.SameLot(OneUnit(InStock).serials[0], st.serials[0])
  {
    hide S.Next, S.Run, S.Start, GoneUnit, Transfers.Arrive, StockTheorems.ManifestAgrees, OldLabel, Rewritten, OneUnit;
    var leaving := [S.Dispatching([0]), S.Confirming([0])];
    TwoSteps(OneUnit(InStock), S.Dispatching([0]), S.Confirming([0]));
    SetsOut();
    IsConfirmed();
    OneMore(OneUnit(InStock), leaving, S.Arriving([a], now));
    assert leaving + [S.Arriving([a], now)] == [leaving[0], leaving[1], S.Arriving([a], now)];
    ComesBack(a, now);
    AcceptedManifest(GoneUnit(false), a, now);
    Disagrees(a);
    RewrittenLot(a);
    OneUnitStarts(InStock);
  }

  lemma AcceptedManifest(st: Stock, a: Transfers.Arrival, now: int)
    requires Transfers.Arrive(st, [a], now).Some?
    ensures S.Next(st, S.Arriving([a], now)) == Transfers.Arrive(st, [a], now).value
  {
    hide Transfers.Arrive;
  }

  lemma RewrittenLot(a: Transfers.Arrival)
    requires a.lot.Some? || a.mfgDate.Some? || a.expiry.Some?
    ensures 0 in Rewritten(a).serials && StockTheorems.LotOf(Rewritten(a).serials[0]) == StockTheorems.ArrivalLot(a)
    ensures !Replacement.SameLot(OneUnit(InStock).serials[0], Rewritten(a).serials[0])
  {
    hide OldLabel;
  }

  // ----- A pick while a return is pending -----

  /** The sale after its one unit has been scanned back, before the shelf is scanned. */
  function Returning(items: seq<nat>): Stock {
    Holding(InStock, Draft(Sale, items, {}).(pending := [0]))
  }

  lemma ScannedBack()
    ensures S.Next(Holding(InStock, Draft(Sale, [0], {})), S.ReturnScanning(0, OldLabel())) == Returning([])
  {
    hide DraftBatches.SaleReturnScan, Holding, Returning, OldLabel;
    BackScanAccepted();
  }

  lemma BackScanAccepted()
    ensures DraftBatches.SaleReturnScan(Holding(InStock, Draft(Sale, [0], {})), 0, OldLabel()) == Some(Returning([]))
  {
    hide OldLabel, Normalize, Lookup, Fefo.Without;
    LabelsAsPrinted();
    OnlyUnitFound(InStock, map[0 := Draft(Sale, [0], {})]);
    var st := Holding(InStock, Draft(Sale, [0], {}));
    assert Lookup(st.serials, OldLabel()) == Some(0);
    assert Fefo.Without([0], 0) == [] by { NothingLeft(); }
    assert [] + [0] == [0] && {} - {0} == {};
    assert st.batches[0 := Returning([]).batches[0]] == Returning([]).batches;
  }

  lemma NothingLeft()
    ensures Fefo.Without([0], 0) == []
  {
    assert [0][1..] == [];
  }

  lemma OfferedAgain()
    ensures Fefo.Available(Returning([]), 0, Fefo.FefoStatuses(Sale)) == {0}
  {
    hide OldLabel;
  }

  lemma PickedAgain()
    ensures DraftBatches.FefoPick(Returning([]), 0, 0, 1) == Some(Returning([0]))
  {
    hide OldLabel, Fefo.Available, Fefo.Ordered;
    OfferedAgain();
    var st := Returning([]);
    Fefo.OrderedIsSorted(st.serials, {0});
    var ids := Fefo.Ordered(st.serials, {0});
    assert |ids| == 1 && ids[0] in ids && ids == [0];
    assert Fefo.Candidates(st, 0, 1, Fefo.FefoStatuses(Sale)) == [0];
    assert [] + [0] == [0] && st.batches[0].(items := [0]) == Returning([0]).batches[0];
    assert st.batches[0 := Returning([0]).batches[0]] == Returning([0]).batches;
  }

  /**
   Scanned for a sale and scanned back, the one unit waits for its shelf: no scan is accepted, but a bulk
   pick puts that same unit into the sale again, while its return is still pending.
   */
  lemma PendingReturnIsPicked(text: string, allowed: bool)
    ensures var steps := [S.Creating(0, Sale, ""), S.Scanning(0, OldLabel(), true), S.ReturnScanning(0, OldLabel())];
            var st := S.Run(OneUnit(InStock), steps);
            && S.Start(OneUnit(InStock)) && DraftBatches.IsOpen(st, 0) && st.batches[0].pending == [0]
            && DraftBatches.Scan(st, 0, text, allowed) == None
            && DraftBatches.FefoPick(st, 0, 0, 1).Some?
            && DraftBatches.FefoPick(st, 0, 0, 1).value.batches[0].items == [0]
            && DraftBatches.FefoPick(st, 0, 0, 1).value.batches[0].pending == [0]
  {
    hide S.Next, S.Run, S.Start, OneUnit, OldLabel, DraftBatches.FefoPick, Lookup, Normalize;
    var scanned := [S.Creating(0, Sale, ""), S.Scanning(0, OldLabel(), true)];
    OpenedAndScanned(InStock, Sale);
    OneMore(OneUnit(InStock), scanned, S.ReturnScanning(0, OldLabel()));
    assert scanned + [S.ReturnScanning(0, OldLabel())] == [scanned[0], scanned[1], S.ReturnScanning(0, OldLabel())];
    ScannedBack();
    PickedAgain();
    OneUnitStarts(InStock);
  }

  // ----- A voucher built anew although Tally took it -----

  /** What one attempt finds. */
  function Attempting(now: int, content: string, outcome: TallySync.Outcome): TallySync.Setting {
    TallySync.Setting(now, "", Some(content), true, outcome)
  }

  /**
   Tally takes the first voucher, but its reply cannot be read: that counts as a rejection, and the next
   attempt posts whatever the generator makes of the batch by then.
   */
  lemma UnreadableReplyIsRebuilt(b: TallySync.Batch, now: int, later: int, one: string, two: string)
    requires TallySync.New(b) && b.row.kind == TallySync.Posted && one != two
    ensures var refused := TallySync.Forcing(Attempting(now, one, TallySync.Refused(true)));
            var imported := TallySync.Forcing(Attempting(later, two, TallySync.Imported));
            var first := TallySync.Run(b, [TallySync.Submitting, refused]);
            var second := TallySync.Run(b, [TallySync.Submitting, refused, imported]);
            var id := TallySync.Uuid5("", b.row.batchNumber);
            && id in first.books && first.books[id].content == one
            && |second.posts| == 2 && second.posts[0].xml.content == one && second.posts[1].xml.content == two
            && second.row.status == TallySync.Synced && id in second.books && second.books[id].content == two
  {
    hide TallySync.Apply, TallySync.Run;
    var refused := TallySync.Forcing(Attempting(now, one, TallySync.Refused(true)));
    var imported := TallySync.Forcing(Attempting(later, two, TallySync.Imported));
    TallySteps(b, TallySync.Submitting, refused, imported);
    FirstAttempt(b, now, one);
    SecondAttempt(TallySync.Apply(TallySync.Apply(b, TallySync.Submitting), refused), later, two);
  }

  lemma TallySteps(b: TallySync.Batch, s1: TallySync.Step, s2: TallySync.Step, s3: TallySync.Step)
    ensures TallySync.Run(b, [s1, s2]) == TallySync.Apply(TallySync.Apply(b, s1), s2)
    ensures TallySync.Run(b, [s1, s2, s3]) == TallySync.Apply(TallySync.Run(b, [s1, s2]), s3)
  {
    hide TallySync.Apply;
    assert [s1, s2, s3][..2] == [s1, s2] && [s1, s2][..1] == [s1] && [s1][..0] == [];
    assert TallySync.Run(b, []) == b;
  }

  lemma FirstAttempt(b: TallySync.Batch, now: int, one: string)
    requires TallySync.New(b) && b.row.kind == TallySync.Posted
    ensures var id := TallySync.Uuid5("", b.row.batchNumber);
            var xml := TallySync.Xml(id, one);
            var tried := TallySync.Apply(TallySync.Apply(b, TallySync.Submitting),
                                         TallySync.Forcing(Attempting(now, one, TallySync.Refused(true))));
            && tried.row.status == TallySync.Failed && tried.row.kind == TallySync.Posted
            && tried.row.remoteId == Some(id)
            && tried.posts == [TallySync.Post(xml, TallySync.Rejected)] && tried.books == map[id := xml]
  {
  }

  lemma SecondAttempt(b: TallySync.Batch, later: int, two: string)
    requires b.row.status == TallySync.Failed && b.row.kind == TallySync.Posted && b.row.remoteId.Some?
    ensures var xml := TallySync.Xml(b.row.remoteId.value, two);
            var tried := TallySync.Apply(b, TallySync.Forcing(Attempting(later, two, TallySync.Imported)));
            && tried.row.status == TallySync.Synced
            && tried.posts == b.posts + [TallySync.Post(xml, TallySync.Accepted)]
            && tried.books == b.books[b.row.remoteId.value := xml]
  {
  }
}
