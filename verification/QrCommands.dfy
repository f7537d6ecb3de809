/**
 Master's commands as the inbox applies them (app/services/master_qr.py, app/services/transfer.py): the
 payload of a QR command is parsed strictly, the stock tables change, and a replacement queues its
 completion event in the same transaction. Transfer commands announce or confirm units.
 */
module QrCommands {
  import opened Options
  import opened CanonicalJson
  import opened StockTypes
  import opened Replacement
  import opened Inbox
  import EnvText
  import O = Outbox
  import S = StockRuns

  /** The application state the inbox's commands act on. */
  datatype App = App(stock: Stock, lite: O.Lite)

  /**
   What lies outside this model: the clock and the fresh UUID at each command, ISO dates as day
   numbers, the product a payload names (if it is acceptable), a unit's snapshot for Master, and
   which stock steps a command of another type asks for (if it is acceptable).
   */
  datatype Surroundings = Surroundings(
    clock: string -> int,
    stamp: string -> string,
    eventId: string -> string,
    dateOf: string -> Option<int>,
    productOf: Json -> Option<nat>,
    snapshot: Serial -> Json,
    others: (Stock, Command) -> Option<seq<S.Step>>)

  // ----- Reading a payload -----

  predicate Has(payload: Json, key: string) {
    payload.Obj? && exists m <- payload.members :: m.key == key
  }

  function GetFrom(members: seq<Member>, key: string): Json {
    if members == [] then Null else if members[0].key == key then members[0].value else GetFrom(members[1..], key)
  }

  /** `payload.get(key)`. */
  function Get(payload: Json, key: string): Json {
    if payload.Obj? then GetFrom(payload.members, key) else Null
  }

  /** `_text`. */
  function TextValue(value: Json, limit: nat): Option<string> {
    if value.Str? && 1 <= |value.s| <= limit && EnvText.Strip(value.s) == value.s then Some(value.s) else None
  }

  /** `_optional_text`: nothing, or a text; none if it is refused. */
  function OptionalText(value: Json, limit: nat): Option<Option<string>> {
    if value == Null || value == Str("") then Some(None)
    else
      var text :- TextValue(value, limit);
      Some(Some(text))
  }

  /** `_date`. */
  function DateValue(dateOf: string -> Option<int>, value: Json): Option<Option<int>> {
    if value == Null || value == Str("") then Some(None)
    else if !value.Str? then None
    else
      var day :- dateOf(value.s);
      Some(Some(day))
  }

  predicate IsWarehouseLevel(value: Json) {
    value.Str? && value.s in {"Company Warehouse", "C&F", "Master Franchise", "Taluk Franchise", "Home Franchise"}
  }

  function LabelOf(env: Surroundings, item: Json): Option<Label> {
    if !item.Obj? then None
    else
      var number :- TextValue(Get(item, "serial_number"), 140);
      var mfgDate :- DateValue(env.dateOf, Get(item, "mfg_date"));
      var expiry :- DateValue(env.dateOf, Get(item, "expiry_date"));
      var lot :- OptionalText(Get(item, "product_batch_number"), 80);
      var warehouse :- OptionalText(Get(item, "warehouse"), 80);
      if Get(item, "status") != Str("GENERATED") then None
      else if Has(item, "warehouse_level") && !IsWarehouseLevel(Get(item, "warehouse_level")) then None
      else Some(Label(number, lot, mfgDate, expiry, warehouse))
  }

  function LabelsOf(env: Surroundings, items: seq<Json>): Option<seq<Label>> {
    if items == [] then Some([])
    else
      var first :- LabelOf(env, items[0]);
      var rest :- LabelsOf(env, items[1..]);
      Some([first] + rest)
  }

  /** The version is 1 and the command is meant for this node. */
  predicate Addressed(lite: O.Lite, payload: Json) {
    var code := O.ConfiguredCode(lite.code);
    Get(payload, "version") == Int(1) && code.Some? && Get(payload, "franchise_code") == Str(code.value)
  }

  function StatusOf(value: Json): Option<SerialStatus> {
    if value == Str("GENERATED") then Some(Generated)
    else if value == Str("IN_STOCK") then Some(InStock)
    else if value == Str("RETURNED") then Some(Returned)
    else if value == Str("DAMAGED") then Some(Damaged)
    else None
  }

  datatype Relabelling = Relabelling(oldNumber: string, newNumber: string, expected: SerialStatus)

  function RelabellingOf(payload: Json): Option<Relabelling> {
    var oldNumber :- TextValue(Get(payload, "old_serial_number"), 140);
    var newNumber :- TextValue(Get(payload, "new_serial_number"), 140);
    var expected :- StatusOf(Get(payload, "expected_status"));
    var reason :- OptionalText(Get(payload, "reason"), 500);
    Some(Relabelling(oldNumber, newNumber, expected))
  }

  // ----- Applying a command -----

  /** `apply_qr_allocated_command`. */
  function ApplyAllocated(env: Surroundings, app: App, c: Command): Handled<App> {
    var serials := Get(c.payload, "serials");
    if !Addressed(app.lite, c.payload) || !serials.Arr? then Raised(app)
    else
      match LabelsOf(env, serials.items)
      case None => Raised(app)
      case Some(labels) =>
        match env.productOf(c.payload)
        case None => Raised(app)
        case Some(product) =>
          match Allocate(app.stock, product, labels, env.clock(c.id))
          case None => Raised(app)
          case Some(stock) => Done(app.(stock := stock))
  }

  /** The event that completes a replacement on Master: the old row and the new one. */
  function ReplacementEvent(env: Surroundings, id: string, retired: Serial, successor: Serial): O.Request {
    O.Request("STOCK_SNAPSHOT", O.QrReplacement, id,
      [Member("reference", Str(id)), Member("actor", Null), Member("reason_code", Str("QR_REPLACEMENT")),
       Member("items", Arr([env.snapshot(retired), env.snapshot(successor)]))],
      env.stamp(id), None, env.eventId(id))
  }

  /** `apply_qr_replace_command`: a refused event leaves a dirty session behind, for the poll to roll back. */
  function ApplyReplace(env: Surroundings, app: App, c: Command): Handled<App> {
    if !Addressed(app.lite, c.payload) then Raised(app)
    else
      match RelabellingOf(c.payload)
      case None => Raised(app)
      case Some(r) =>
        match Replace(app.stock, r.oldNumber, r.newNumber, r.expected, env.clock(c.id))
        case None => Raised(app)
        case Some(stock) =>
          var i := Lookup(app.stock.serials, r.oldNumber).value;
          var event := ReplacementEvent(env, c.id, stock.serials[i], stock.serials[app.stock.nextId]);
          match O.Enqueue(app.lite, event)
          case None => Raised(app.(stock := stock))
          case Some(lite) => Done(App(stock, lite))
  }

  /** What commands of other types may do to the stock: a manifest arrives, or a receipt is confirmed. */
  predicate IsTransferStep(s: S.Step) {
    s.Arriving? || s.Confirming?
  }

  /** The steps one after the other, if each of them is such a step and accepted. */
  function AllAccepted(st: Stock, steps: seq<S.Step>): Option<Stock>
    decreases |steps|
  {
    if steps == [] then Some(st)
    else
      var before :- AllAccepted(st, steps[..|steps| - 1]);
      if IsTransferStep(steps[|steps| - 1]) then S.Attempt(before, steps[|steps| - 1]) else None
  }

  function ApplyOther(env: Surroundings, app: App, c: Command): Handled<App> {
    match env.others(app.stock, c)
    case None => Raised(app)
    case Some(steps) =>
      match AllAccepted(app.stock, steps)
      case None => Raised(app)
      case Some(stock) => Done(app.(stock := stock))
  }

  /** The dispatch of `apply_master_command`. */
  function Dispatch(env: Surroundings, app: App, c: Command): Handled<App> {
    if c.kind == "QR_ALLOCATED" then ApplyAllocated(env, app, c)
    else if c.kind == "QR_REPLACE" then ApplyReplace(env, app, c)
    else ApplyOther(env, app, c)
  }

  // ----- What an applied command amounts to -----

  /** The steps of the stock machine an applied command takes. */
  ghost function StockStepsOf(env: Surroundings, app: App, c: Command): seq<S.Step> {
    if c.kind == "QR_ALLOCATED" then
      var serials := Get(c.payload, "serials");
      if !serials.Arr? || LabelsOf(env, serials.items).None? || env.productOf(c.payload).None? then []
      else [S.Allocating(env.productOf(c.payload).value, LabelsOf(env, serials.items).value, env.clock(c.id))]
    else if c.kind == "QR_REPLACE" then
      match RelabellingOf(c.payload)
      case None => []
      case Some(r) => [S.Replacing(r.oldNumber, r.newNumber, r.expected, env.clock(c.id))]
    else env.others(app.stock, c).GetOr([])
  }

  lemma {:induction false} AcceptedIsRun(st: Stock, steps: seq<S.Step>)
    requires AllAccepted(st, steps).Some?
    ensures S.Run(st, steps) == AllAccepted(st, steps).value
    decreases |steps|
  {
    hide S.Attempt;
    if steps != [] {
      AcceptedIsRun(st, steps[..|steps| - 1]);
    }
  }

  lemma OneStep(st: Stock, s: S.Step)
    ensures S.Run(st, [s]) == S.Next(st, s)
  {
    assert [s][..0] == [];
  }

  /** An applied command changes the stock by steps of the stock machine. */
  lemma AppliedIsStockRun(env: Surroundings, app: App, c: Command)
    requires Dispatch(env, app, c).Done?
    ensures Dispatch(env, app, c).after.stock == S.Run(app.stock, StockStepsOf(env, app, c))
  {
    hide Addressed, RelabellingOf, LabelsOf, Allocate, Replace, O.Enqueue, S.Run;
    if c.kind == "QR_ALLOCATED" || c.kind == "QR_REPLACE" {
      OneStep(app.stock, StockStepsOf(env, app, c)[0]);
    } else {
      AcceptedIsRun(app.stock, env.others(app.stock, c).value);
    }
  }

  /** The event an applied replacement queues. */
  ghost function EventOf(env: Surroundings, app: App, c: Command): Option<O.Request> {
    if c.kind != "QR_REPLACE" || RelabellingOf(c.payload).None? then None
    else
      var r := RelabellingOf(c.payload).value;
      match Replace(app.stock, r.oldNumber, r.newNumber, r.expected, env.clock(c.id))
      case None => None
      case Some(stock) =>
        var i := Lookup(app.stock.serials, r.oldNumber).value;
        Some(ReplacementEvent(env, c.id, stock.serials[i], stock.serials[app.stock.nextId]))
  }

  /** An applied command queues its event, if it has one, and nothing else. */
  lemma AppliedQueues(env: Surroundings, app: App, c: Command)
    requires Dispatch(env, app, c).Done?
    ensures EventOf(env, app, c).Some? <==> c.kind == "QR_REPLACE"
    ensures EventOf(env, app, c).Some? ==>
              var event := EventOf(env, app, c).value;
              event.aggregate == O.QrReplacement && event.aggregateId == c.id && event.batchId.None?
              && O.Enqueue(app.lite, event) == Some(Dispatch(env, app, c).after.lite)
    ensures EventOf(env, app, c).None? ==> Dispatch(env, app, c).after.lite == app.lite
  {
    hide Addressed, RelabellingOf, LabelsOf, Allocate, Replace, O.Enqueue, AllAccepted;
  }

  // ----- The stock invariant under commands -----

  function HandlerOf(env: Surroundings): Handler<App> {
    (app, c) => Dispatch(env, app, c)
  }

  lemma {:induction false} RunFromKeepsValid(st: Stock, steps: seq<S.Step>, retired: set<nat>)
    requires S.Valid(st, retired)
    ensures S.Valid(S.Run(st, steps), retired)
    decreases |steps|
  {
    hide S.Valid, S.Next;
    if steps != [] {
      RunFromKeepsValid(st, steps[..|steps| - 1], retired);
      S.StepKeepsValid(S.Run(st, steps[..|steps| - 1]), retired, steps[|steps| - 1]);
    }
  }

  /** Any sequence of applied commands, of whatever types, keeps batches, histories and labels well formed. */
  lemma {:induction false} CommandsKeepLabels(env: Surroundings, start: App, commands: seq<Command>, retired: set<nat>)
    requires S.Valid(start.stock, retired) && AllDone(HandlerOf(env), start, commands)
    ensures S.Valid(Fold(HandlerOf(env), start, commands).stock, retired)
    decreases |commands|
  {
    hide S.Valid, S.Run, Dispatch, StockStepsOf;
    if commands != [] {
      var init, c := commands[..|commands| - 1], commands[|commands| - 1];
      CommandsKeepLabels(env, start, init, retired);
      var before := Fold(HandlerOf(env), start, init);
      assert Dispatch(env, before, c).Done?;
      AppliedIsStockRun(env, before, c);
      RunFromKeepsValid(before.stock, StockStepsOf(env, before, c), retired);
    }
  }
}
