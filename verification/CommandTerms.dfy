/**
 What Master has to write in a QR command for it to be applied (app/services/master_qr.py:21-260), key by key.
 */
module CommandTerms {
  import opened Options
  import opened CanonicalJson
  import opened StockTypes
  import opened Replacement
  import opened QrCommands
  import EnvText
  import F = FrozenBodies
  import I = Inbox
  import L = LabelTerms
  import O = Outbox
  import S = StockRuns

  /** A text of one character to `limit`, with no whitespace at its ends. */
  ghost predicate PlainText(s: string, limit: nat) {
    1 <= |s| <= limit && !EnvText.IsSpace(s[0]) && !EnvText.IsSpace(s[|s| - 1])
  }

  /** Absent, null and empty all say nothing. */
  ghost predicate SaysNothing(value: Option<Json>) {
    value in {None, Some(Null), Some(Str(""))}
  }

  /** An optional text. */
  ghost predicate SaysText(value: Option<Json>, limit: nat, text: Option<string>) {
    match text
    case None => SaysNothing(value)
    case Some(s) => value == Some(Str(s)) && PlainText(s, limit)
  }

  ghost predicate SaysDate(dateOf: string -> Option<int>, value: Option<Json>, day: Option<int>) {
    match day
    case None => SaysNothing(value)
    case Some(d) => exists s :: value == Some(Str(s)) && s != "" && dateOf(s) == Some(d)
  }

  lemma {:induction false} GetIsLookup(members: seq<Member>, key: string)
    ensures GetFrom(members, key) == F.Lookup(members, key).GetOr(Null)
    ensures Has(Obj(members), key) <==> F.Lookup(members, key).Some?
  {
    F.LookupHasKey(members, key);
    GetIsFirst(members, key);
  }

  lemma {:induction false} GetIsFirst(members: seq<Member>, key: string)
    ensures GetFrom(members, key) == F.Lookup(members, key).GetOr(Null)
  {
    if members != [] {
      GetIsFirst(members[1..], key);
    }
  }

  lemma TextInTerms(s: string, limit: nat)
    ensures TextValue(Str(s), limit) == Some(s) <==> PlainText(s, limit)
    ensures TextValue(Str(s), limit) in {None, Some(s)}
  {
    hide EnvText.IsSpace, EnvText.StripLeft, EnvText.StripRight;
    EnvText.StripIsStripped(s);
    if s != "" && EnvText.Stripped(s) {
      EnvText.StripIdentity(s);
    }
  }

  /** A value is read as this optional text exactly when it says it. */
  lemma OptionalInTerms(value: Option<Json>, limit: nat, text: Option<string>)
    ensures OptionalText(value.GetOr(Null), limit) == Some(text) <==> SaysText(value, limit, text)
  {
    hide EnvText.Strip, PlainText;
    if value.Some? && value.value.Str? {
      TextInTerms(value.value.s, limit);
      EmptyIsNoText(limit);
    }
  }

  lemma EmptyIsNoText(limit: nat)
    ensures !PlainText("", limit)
  {
  }

  lemma DateInTerms(dateOf: string -> Option<int>, value: Option<Json>, day: Option<int>)
    ensures DateValue(dateOf, value.GetOr(Null)) == Some(day) <==> SaysDate(dateOf, value, day)
  {
  }

  // ----- Replacements -----

  const STATUS_NAMES: map<string, SerialStatus> := map[
    "GENERATED" := Generated, "IN_STOCK" := InStock, "RETURNED" := Returned, "DAMAGED" := Damaged]

  /** The payload of a replacement. */
  ghost predicate AsksReplacement(members: seq<Member>, code: string, oldNumber: string, newNumber: string,
                                  expected: SerialStatus) {
    && F.Lookup(members, "version") == Some(Int(1)) && F.Lookup(members, "franchise_code") == Some(Str(code))
    && F.Lookup(members, "old_serial_number") == Some(Str(oldNumber)) && PlainText(oldNumber, 140)
    && F.Lookup(members, "new_serial_number") == Some(Str(newNumber)) && PlainText(newNumber, 140)
    && (exists name :: name in STATUS_NAMES && STATUS_NAMES[name] == expected
                       && F.Lookup(members, "expected_status") == Some(Str(name)))
    && exists reason :: SaysText(F.Lookup(members, "reason"), 500, reason)
  }

  lemma StatusInTerms(value: Json, expected: SerialStatus)
    ensures StatusOf(value) == Some(expected) <==>
              exists name :: name in STATUS_NAMES && STATUS_NAMES[name] == expected && value == Str(name)
  {
    assert "GENERATED" in STATUS_NAMES && "IN_STOCK" in STATUS_NAMES && "RETURNED" in STATUS_NAMES
           && "DAMAGED" in STATUS_NAMES;
  }

  /** The payload asks for a replacement on this node exactly if it is read as one. */
  lemma ReplacementInTerms(lite: O.Lite, members: seq<Member>, r: Relabelling)
    ensures Addressed(lite, Obj(members)) && RelabellingOf(Obj(members)) == Some(r) <==>
              O.ConfiguredCode(lite.code).Some?
              && AsksReplacement(members, O.ConfiguredCode(lite.code).value, r.oldNumber, r.newNumber, r.expected)
  {
    hide O.ConfiguredCode, F.Lookup, GetFrom, TextValue, OptionalText, StatusOf, PlainText, SaysText;
    GetIsLookup(members, "version");
    GetIsLookup(members, "franchise_code");
    GetIsLookup(members, "old_serial_number");
    GetIsLookup(members, "new_serial_number");
    GetIsLookup(members, "expected_status");
    GetIsLookup(members, "reason");
    TextAt(members, "old_serial_number", r.oldNumber);
    TextAt(members, "new_serial_number", r.newNumber);
    StatusInTerms(Get(Obj(members), "expected_status"), r.expected);
    SomeReason(F.Lookup(members, "reason"));
  }

  /** A key holds this text. */
  lemma TextAt(members: seq<Member>, key: string, s: string)
    ensures TextValue(Get(Obj(members), key), 140) == Some(s) <==>
              F.Lookup(members, key) == Some(Str(s)) && PlainText(s, 140)
  {
    hide EnvText.Strip, PlainText, F.Lookup, GetFrom;
    GetIsLookup(members, key);
    TextInTerms(s, 140);
  }

  lemma SomeReason(value: Option<Json>)
    ensures OptionalText(value.GetOr(Null), 500).Some? <==> exists reason :: SaysText(value, 500, reason)
  {
    hide OptionalText, SaysText;
    forall reason: Option<string>
      ensures OptionalText(value.GetOr(Null), 500) == Some(reason) <==> SaysText(value, 500, reason)
    {
      OptionalInTerms(value, 500, reason);
    }
    if OptionalText(value.GetOr(Null), 500).Some? {
      assert SaysText(value, 500, OptionalText(value.GetOr(Null), 500).value);
    }
  }

  /** A replacement on this node is asked for by the command. */
  ghost predicate Asked(app: App, c: I.Command, r: Relabelling) {
    c.payload.Obj? && O.ConfiguredCode(app.lite.code).Some?
    && AsksReplacement(c.payload.members, O.ConfiguredCode(app.lite.code).value, r.oldNumber, r.newNumber, r.expected)
  }

  lemma AskedIsRead(app: App, c: I.Command, r: Relabelling)
    ensures Asked(app, c, r) <==> Addressed(app.lite, c.payload) && RelabellingOf(c.payload) == Some(r)
  {
    hide AsksReplacement, RelabellingOf, O.ConfiguredCode;
    if c.payload.Obj? {
      assert c.payload == Obj(c.payload.members);
      ReplacementInTerms(app.lite, c.payload.members, r);
    }
  }

  /** A command that asks for no replacement on this node is refused. */
  lemma OnlyAskedIsApplied(env: Surroundings, app: App, c: I.Command) returns (r: Relabelling)
    requires c.kind == "QR_REPLACE" && Dispatch(env, app, c).Done?
    ensures Asked(app, c, r)
  {
    hide Asked, Addressed, RelabellingOf, Replace, O.Enqueue;
    r := RelabellingOf(c.payload).value;
    AskedIsRead(app, c, r);
  }

  /**
   A replacement that is asked for is applied exactly when its unit may be replaced and the event that completes it
   is accepted; then the unit is relabelled and that event queued.
   */
  lemma AskedIsApplied(env: Surroundings, app: App, c: I.Command, r: Relabelling)
    requires c.kind == "QR_REPLACE" && Asked(app, c, r)
    ensures var i, st, result := Lookup(app.stock.serials, r.oldNumber), app.stock, Dispatch(env, app, c);
            if i.None? || !L.MayReplace(st, i.value, r.newNumber, r.expected) then result.Raised?
            else
              exists after :: L.Relabelled(st, i.value, r.newNumber, env.clock(c.id), after)
                && i.value in after.serials && st.nextId in after.serials
                && var queued := O.Enqueue(app.lite,
                     ReplacementEvent(env, c.id, after.serials[i.value], after.serials[st.nextId]));
                   if queued.None? then result.Raised? else result == I.Done(App(after, queued.value))
  {
    hide Asked, Addressed, RelabellingOf, Replace, O.Enqueue, ReplacementEvent, L.MayReplace, L.Relabelled;
    AskedIsRead(app, c, r);
    var i, now := Lookup(app.stock.serials, r.oldNumber), env.clock(c.id);
    if i.None? {
      L.NothingToReplace(app.stock, r.oldNumber, r.newNumber, r.expected, now);
    } else {
      L.ReplaceInTerms(app.stock, r.oldNumber, r.newNumber, r.expected, now);
      if Replace(app.stock, r.oldNumber, r.newNumber, r.expected, now).Some? {
        var after := Replace(app.stock, r.oldNumber, r.newNumber, r.expected, now).value;
        assert L.Relabelled(app.stock, i.value, r.newNumber, now, after);
        KeysOfRelabelled(app.stock, i.value, r.newNumber, now, after);
      }
    }
  }

  lemma KeysOfRelabelled(st: Stock, i: nat, newNumber: string, now: int, after: Stock)
    requires i in st.serials && L.Relabelled(st, i, newNumber, now, after)
    ensures i in after.serials && st.nextId in after.serials
  {
  }

  // ----- Allocations -----

  const LEVELS: set<string> := {"Company Warehouse", "C&F", "Master Franchise", "Taluk Franchise", "Home Franchise"}

  /** One serial of an allocation, key by key. */
  ghost predicate TellsLabel(env: Surroundings, item: Json, l: Label) {
    && item.Obj? && var m := item.members;
    && F.Lookup(m, "serial_number") == Some(Str(l.number)) && PlainText(l.number, 140)
    && F.Lookup(m, "status") == Some(Str("GENERATED"))
    && SaysDate(env.dateOf, F.Lookup(m, "mfg_date"), l.mfgDate)
    && SaysDate(env.dateOf, F.Lookup(m, "expiry_date"), l.expiry)
    && SaysText(F.Lookup(m, "product_batch_number"), 80, l.lot)
    && SaysText(F.Lookup(m, "warehouse"), 80, l.warehouse)
    && SaysLevel(F.Lookup(m, "warehouse_level"))
  }

  ghost predicate SaysLevel(value: Option<Json>) {
    value == None || (value.value.Str? && value.value.s in LEVELS)
  }

  lemma LabelInTerms(env: Surroundings, item: Json, l: Label)
    ensures LabelOf(env, item) == Some(l) <==> TellsLabel(env, item, l)
  {
    hide F.Lookup, GetFrom, TextValue, OptionalText, PlainText, SaysText, DateValue, SaysDate, Has, IsWarehouseLevel,
         SaysLevel;
    if item.Obj? {
      var m := item.members;
      assert item == Obj(m);
      GetIsLookup(m, "status");
      GetIsLookup(m, "mfg_date");
      GetIsLookup(m, "expiry_date");
      GetIsLookup(m, "product_batch_number");
      GetIsLookup(m, "warehouse");
      TextAt(m, "serial_number", l.number);
      DateInTerms(env.dateOf, F.Lookup(m, "mfg_date"), l.mfgDate);
      DateInTerms(env.dateOf, F.Lookup(m, "expiry_date"), l.expiry);
      OptionalInTerms(F.Lookup(m, "product_batch_number"), 80, l.lot);
      OptionalInTerms(F.Lookup(m, "warehouse"), 80, l.warehouse);
      LevelInTerms(m);
    }
  }

  lemma LevelInTerms(members: seq<Member>)
    ensures Has(Obj(members), "warehouse_level") && !IsWarehouseLevel(Get(Obj(members), "warehouse_level")) <==>
              !SaysLevel(F.Lookup(members, "warehouse_level"))
  {
    hide F.Lookup, GetFrom, Has;
    GetIsLookup(members, "warehouse_level");
  }

  lemma {:induction false} LabelsInTerms(env: Surroundings, items: seq<Json>, labels: seq<Label>)
    ensures LabelsOf(env, items) == Some(labels) <==>
              |items| == |labels| && forall k :: 0 <= k < |items| ==> TellsLabel(env, items[k], labels[k])
    decreases |items|
  {
    hide LabelOf, TellsLabel;
    if items != [] && labels != [] {
      LabelInTerms(env, items[0], labels[0]);
      LabelsInTerms(env, items[1..], labels[1..]);
      assert labels == [labels[0]] + labels[1..];
    }
  }

  /** An allocation of these labels to this node. */
  ghost predicate Allocates(env: Surroundings, app: App, c: I.Command, items: seq<Json>, labels: seq<Label>) {
    c.payload.Obj? && O.ConfiguredCode(app.lite.code).Some?
    && F.Lookup(c.payload.members, "version") == Some(Int(1))
    && F.Lookup(c.payload.members, "franchise_code") == Some(Str(O.ConfiguredCode(app.lite.code).value))
    && F.Lookup(c.payload.members, "serials") == Some(Arr(items))
    && |items| == |labels| && forall k :: 0 <= k < |items| ==> TellsLabel(env, items[k], labels[k])
  }

  lemma AllocatesIsRead(env: Surroundings, app: App, c: I.Command, items: seq<Json>, labels: seq<Label>)
    ensures Allocates(env, app, c, items, labels) <==>
              Addressed(app.lite, c.payload) && Get(c.payload, "serials") == Arr(items)
              && LabelsOf(env, items) == Some(labels)
  {
    hide O.ConfiguredCode, F.Lookup, GetFrom, TellsLabel, LabelsOf;
    LabelsInTerms(env, items, labels);
    if c.payload.Obj? {
      var m := c.payload.members;
      assert c.payload == Obj(m);
      GetIsLookup(m, "version");
      GetIsLookup(m, "franchise_code");
      GetIsLookup(m, "serials");
    }
  }

  /** A command that allocates nothing to this node is refused. */
  lemma OnlyAllocationsAreApplied(env: Surroundings, app: App, c: I.Command)
      returns (items: seq<Json>, labels: seq<Label>)
    requires c.kind == "QR_ALLOCATED" && Dispatch(env, app, c).Done?
    ensures Allocates(env, app, c, items, labels) && env.productOf(c.payload).Some?
  {
    hide Allocates, Addressed, LabelsOf, Allocate;
    items := Get(c.payload, "serials").items;
    labels := LabelsOf(env, items).value;
    AllocatesIsRead(env, app, c, items, labels);
  }

  /** An allocation of an acceptable product is applied exactly when its labels may be allocated, and adds them. */
  lemma AllocationIsApplied(env: Surroundings, app: App, c: I.Command, items: seq<Json>, labels: seq<Label>)
    requires c.kind == "QR_ALLOCATED" && Allocates(env, app, c, items, labels)
    ensures var result, product := Dispatch(env, app, c), env.productOf(c.payload);
            if product.None? || !L.MayAllocate(app.stock, labels) then result.Raised?
            else
              result.Done? && result.after.lite == app.lite
              && L.AllAdded(app.stock, product.value, labels, env.clock(c.id), result.after.stock)
  {
    hide Allocates, Addressed, LabelsOf, Allocate, L.MayAllocate, L.AllAdded;
    AllocatesIsRead(env, app, c, items, labels);
    if env.productOf(c.payload).Some? {
      L.AllocateInTerms(app.stock, env.productOf(c.payload).value, labels, env.clock(c.id));
    }
  }

  // ----- Other commands -----

  /** Each step is a manifest's arrival or a receipt's confirmation, and is accepted where the earlier ones lead. */
  ghost predicate AcceptedInTurn(st: Stock, steps: seq<S.Step>) {
    forall k :: 0 <= k < |steps| ==>
      (steps[k].Arriving? || steps[k].Confirming?) && S.Attempt(S.Run(st, steps[..k]), steps[k]).Some?
  }

  lemma {:induction false} AllAcceptedInTurn(st: Stock, steps: seq<S.Step>)
    ensures AllAccepted(st, steps).Some? <==> AcceptedInTurn(st, steps)
    decreases |steps|
  {
    hide S.Attempt, S.Run;
    if steps != [] {
      var n := |steps| - 1;
      AllAcceptedInTurn(st, steps[..n]);
      assert forall k :: 0 <= k < n ==> steps[..n][..k] == steps[..k] && steps[..n][k] == steps[k];
      if AllAccepted(st, steps[..n]).Some? {
        AcceptedIsRun(st, steps[..n]);
      }
    }
  }

  /** Any other command is applied exactly when it asks for such steps, and takes the stock through them. */
  lemma OtherIsApplied(env: Surroundings, app: App, c: I.Command)
    requires c.kind !in {"QR_ALLOCATED", "QR_REPLACE"}
    ensures var result, steps := Dispatch(env, app, c), env.others(app.stock, c);
            if steps.None? || !AcceptedInTurn(app.stock, steps.value) then result.Raised?
            else result == I.Done(App(S.Run(app.stock, steps.value), app.lite))
  {
    hide AllAccepted, AcceptedInTurn, S.Run;
    var steps := env.others(app.stock, c);
    if steps.Some? {
      AllAcceptedInTurn(app.stock, steps.value);
      if AcceptedInTurn(app.stock, steps.value) {
        AcceptedIsRun(app.stock, steps.value);
      }
    }
  }
}
