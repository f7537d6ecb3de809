/**
 The durable inbox (app/services/master_sync.py): commands polled from Master are applied once
 each, whatever is delivered again, lost or refused, and whatever the application does between
 polls. The application state `S`, its own calls `L` and the handlers are parameters; a handler that
 raises may leave the session dirty, and the poll rolls it back.
 */
module Inbox {
  import opened Options
  import opened CanonicalJson
  import opened CanonicalOrder

  const COMMAND_SCHEMA_VERSION := 1

  datatype Command = Command(id: string, kind: string, version: int, payload: Json)

  /** What arrives; a malformed entry has no usable id, type, version or payload. */
  datatype Delivery = Malformed | WellFormed(command: Command)

  datatype RowStatus = Received | Applied | Failed

  datatype Row = Row(kind: string, version: int, payload: string, digest: Digest, status: RowStatus, attempts: nat)

  datatype Handled<S> = Done(after: S) | Raised(dirty: S)

  type Handler<!S> = (S, Command) -> Handled<S>

  /** The database: the application state, the inbox rows, and the commands applied so far. */
  datatype State<S> = State(app: S, rows: map<string, Row>, applied: seq<Command>)

  function RowOf(c: Command, status: RowStatus, attempts: nat): Row {
    var text := Print(c.payload);
    Row(c.kind, c.version, text, Sha256(text), status, attempts)
  }

  predicate SameContent(row: Row, c: Command) {
    row.digest == Sha256(Print(c.payload)) && row.kind == c.kind && row.version == c.version
  }

  /** `apply_master_command`, followed by the commit; `None` if it raised and was rolled back. */
  function ApplyCommand<S>(h: Handler<S>, st: State<S>, c: Command): Option<State<S>> {
    if c.version != COMMAND_SCHEMA_VERSION then None
    else if c.id in st.rows && !SameContent(st.rows[c.id], c) then None
    else if c.id in st.rows && st.rows[c.id].status == Applied then Some(st)
    else
      var row := if c.id in st.rows then st.rows[c.id] else RowOf(c, Received, 0);
      match h(st.app, c)
      case Raised(_) => None
      case Done(app) =>
        Some(State(app, st.rows[c.id := row.(status := Applied, attempts := row.attempts + 1)], st.applied + [c]))
  }

  /** The session as a refused application leaves it, before the rollback. */
  function Refused<S>(h: Handler<S>, st: State<S>, c: Command): State<S> {
    if c.version != COMMAND_SCHEMA_VERSION || (c.id in st.rows && !SameContent(st.rows[c.id], c)) then st
    else
      var row := if c.id in st.rows then st.rows[c.id] else RowOf(c, Received, 0);
      match h(st.app, c)
      case Raised(dirty) =>
        State(dirty, st.rows[c.id := row.(status := Failed, attempts := row.attempts + 1)], st.applied)
      case Done(_) => st
  }

  /** `_persist_failed_command`: an applied row is left alone, and frozen content is never rewritten. */
  function PersistFailed<S>(st: State<S>, c: Command): State<S> {
    if c.id !in st.rows then st.(rows := st.rows[c.id := RowOf(c, Failed, 1)])
    else if st.rows[c.id].status == Applied then st
    else st.(rows := st.rows[c.id := st.rows[c.id].(status := Failed, attempts := st.rows[c.id].attempts + 1)])
  }

  /** What becomes of one command's commit and of its acknowledgement. */
  datatype Fate =
    | Acknowledged              // Master records it, and the reply arrives
    | ReplyLost(recorded: bool) // an error or a crash after the commit; Master may have recorded it
    | CrashBeforeCommit

  /** The inbox, and the ids Master has recorded as acknowledged. */
  datatype Hub<S> = Hub(state: State<S>, acked: set<string>)

  /** One turn of the poll loop; the second result says whether the loop goes on. */
  function PollOne<S>(h: Handler<S>, hub: Hub<S>, d: Delivery, fate: Fate): (Hub<S>, bool) {
    if d.Malformed? || fate == CrashBeforeCommit then (hub, false)
    else
      match ApplyCommand(h, hub.state, d.command)
      case None => (hub.(state := PersistFailed(hub.state, d.command)), false)
      case Some(st) =>
        match fate
        case Acknowledged => (Hub(st, hub.acked + {d.command.id}), true)
        case ReplyLost(recorded) => (Hub(st, if recorded then hub.acked + {d.command.id} else hub.acked), false)
        case CrashBeforeCommit => (hub, false)
  }

  /** `poll_master_commands` on a reply that lists `deliveries`. */
  function Poll<S>(h: Handler<S>, hub: Hub<S>, deliveries: seq<Delivery>, fates: seq<Fate>): Hub<S>
    decreases |deliveries|
  {
    if deliveries == [] || fates == [] then hub
    else
      var (hub', more) := PollOne(h, hub, deliveries[0], fates[0]);
      if more then Poll(h, hub', deliveries[1..], fates[1..]) else hub'
  }

  // ----- The inbox as mutable rows -----

  class MasterInbox<S> {
    const handler: Handler<S>
    var app: S
    var rows: map<string, Row>
    ghost var applied: seq<Command>

    ghost function Contents(): State<S>
      reads this
    {
      State(app, rows, applied)
    }

    constructor (handler: Handler<S>, app: S)
      ensures Contents() == State(app, map[], [])
      ensures this.handler == handler
    {
      this.handler := handler;
      this.app := app;
      rows := map[];
      applied := [];
    }

    /** `apply_master_command`. A failure leaves the session as the exception found it. */
    method ApplyMasterCommand(c: Command) returns (ok: bool)
      modifies this
      ensures ok == ApplyCommand(handler, old(Contents()), c).Some?
      ensures ok ==> Some(Contents()) == ApplyCommand(handler, old(Contents()), c)
      ensures !ok ==> Contents() == Refused(handler, old(Contents()), c)
    {
      if c.version != COMMAND_SCHEMA_VERSION {
        return false;
      }
      var text := Print(c.payload);
      if c.id in rows {
        var row := rows[c.id];
        if row.digest != Sha256(text) || row.kind != c.kind || row.version != c.version {
          return false;
        }
        if row.status == Applied {
          return true;
        }
      } else {
        rows := rows[c.id := RowOf(c, Received, 0)];
      }
      var row := rows[c.id];
      rows := rows[c.id := row.(status := Received, attempts := row.attempts + 1)];
      match handler(app, c) {
        case Raised(dirty) =>
          app := dirty;
          rows := rows[c.id := rows[c.id].(status := Failed)];
          assert rows == old(rows)[c.id := row.(status := Failed, attempts := row.attempts + 1)];
          return false;
        case Done(after) =>
          app := after;
          rows := rows[c.id := rows[c.id].(status := Applied)];
          applied := applied + [c];
          assert rows == old(rows)[c.id := row.(status := Applied, attempts := row.attempts + 1)];
          return true;
      }
    }

    method PersistFailedCommand(c: Command)
      modifies this
      ensures Contents() == PersistFailed(old(Contents()), c)
    {
      if c.id !in rows {
        rows := rows[c.id := RowOf(c, Failed, 1)];
      } else if rows[c.id].status != Applied {
        rows := rows[c.id := rows[c.id].(status := Failed, attempts := rows[c.id].attempts + 1)];
      }
    }

    /** `poll_master_commands`: apply, commit and acknowledge in order; stop at the first failure. */
    method PollMasterCommands(deliveries: seq<Delivery>, fates: seq<Fate>, acked: set<string>)
      returns (acked': set<string>, count: nat)
      requires |fates| == |deliveries|
      modifies this
      ensures Hub(Contents(), acked') == Poll(handler, Hub(old(Contents()), acked), deliveries, fates)
    {
      hide ApplyCommand;
      acked', count := acked, 0;
      while count < |deliveries|
        invariant count <= |deliveries|
        invariant Poll(handler, Hub(Contents(), acked'), deliveries[count..], fates[count..])
               == Poll(handler, Hub(old(Contents()), acked), deliveries, fates)
      {
        assert deliveries[count..][0] == deliveries[count] && deliveries[count..][1..] == deliveries[count + 1..];
        assert fates[count..][0] == fates[count] && fates[count..][1..] == fates[count + 1..];
        if deliveries[count].Malformed? || fates[count] == CrashBeforeCommit {
          return;
        }
        var c := deliveries[count].command;
        var savedApp, savedRows := app, rows;
        var ok := ApplyMasterCommand(c);
        if !ok {
          app, rows := savedApp, savedRows;
          PersistFailedCommand(c);
          return;
        }
        match fates[count] {
          case Acknowledged =>
            acked' := acked' + {c.id};
          case ReplyLost(recorded) =>
            acked' := if recorded then acked' + {c.id} else acked';
            return;
        }
        count := count + 1;
      }
    }
  }

  // ----- Any deliveries at all -----

  /** The state after handling the commands one after the other. */
  ghost function Fold<S>(h: Handler<S>, app: S, commands: seq<Command>): S {
    if commands == [] then app
    else
      var last := commands[|commands| - 1];
      match h(Fold(h, app, commands[..|commands| - 1]), last)
      case Done(after) => after
      case Raised(dirty) => dirty
  }

  /** None of the handlers raised. */
  ghost predicate AllDone<S>(h: Handler<S>, app: S, commands: seq<Command>)
    decreases |commands|
  {
    commands == []
    || (AllDone(h, app, commands[..|commands| - 1])
        && h(Fold(h, app, commands[..|commands| - 1]), commands[|commands| - 1]).Done?)
  }

  ghost predicate DistinctIds(commands: seq<Command>) {
    forall i, j :: 0 <= i < j < |commands| ==> commands[i].id != commands[j].id
  }

  ghost predicate Holds(commands: seq<Command>, id: string) {
    exists c <- commands :: c.id == id
  }

  /** Applied ids are distinct; the rows of applied commands, and only theirs, say APPLIED. */
  ghost predicate Recorded<S>(st: State<S>) {
    && DistinctIds(st.applied)
    && (forall c <- st.applied :: c.id in st.rows && SameContent(st.rows[c.id], c))
    && (forall id <- st.rows :: st.rows[id].status == Applied <==> Holds(st.applied, id))
  }

  /** From `st` to `after`, the application went through just the newly applied commands. */
  ghost predicate Handles<S>(h: Handler<S>, st: State<S>, after: State<S>) {
    && st.applied <= after.applied
    && AllDone(h, st.app, after.applied[|st.applied|..])
    && after.app == Fold(h, st.app, after.applied[|st.applied|..])
  }

  lemma HandlesNothing<S>(h: Handler<S>, st: State<S>, after: State<S>)
    requires after.app == st.app && after.applied == st.applied
    ensures Handles(h, st, after)
  {
  }

  lemma HandlesOne<S>(h: Handler<S>, st: State<S>, after: State<S>, c: Command)
    requires after.applied == st.applied + [c] && h(st.app, c).Done? && after.app == h(st.app, c).after
    ensures Handles(h, st, after)
  {
    assert after.applied[|st.applied|..] == [c];
    assert [c][..0] == [];
  }

  lemma {:induction false} FoldConcat<S>(h: Handler<S>, app: S, a: seq<Command>, b: seq<Command>)
    requires AllDone(h, app, a) && AllDone(h, Fold(h, app, a), b)
    ensures AllDone(h, app, a + b) && Fold(h, app, a + b) == Fold(h, Fold(h, app, a), b)
    decreases |b|
  {
    if b == [] {
      assert a + b == a;
    } else {
      FoldConcat(h, app, a, b[..|b| - 1]);
      assert (a + b)[..|a + b| - 1] == a + b[..|b| - 1];
    }
  }

  lemma HandlesTwice<S>(h: Handler<S>, a: State<S>, b: State<S>, c: State<S>)
    requires Handles(h, a, b) && Handles(h, b, c)
    ensures Handles(h, a, c)
  {
    hide Fold, AllDone;
    FoldConcat(h, a.app, b.applied[|a.applied|..], c.applied[|b.applied|..]);
    assert c.applied[|a.applied|..] == b.applied[|a.applied|..] + c.applied[|b.applied|..];
  }

  lemma ApplyIsSound<S>(h: Handler<S>, st: State<S>, c: Command)
    requires Recorded(st) && ApplyCommand(h, st, c).Some?
    ensures Recorded(ApplyCommand(h, st, c).value) && Handles(h, st, ApplyCommand(h, st, c).value)
    ensures Holds(ApplyCommand(h, st, c).value.applied, c.id)
  {
    hide Print, Fold, AllDone, DistinctIds, Holds, Handles;
    var after := ApplyCommand(h, st, c).value;
    if c.id in st.rows && st.rows[c.id].status == Applied {
      HandlesNothing(h, st, after);
    } else {
      NotApplied(st, c.id);
      HandlesOne(h, st, after, c);
      DistinctSnoc(st.applied, c);
      forall id: string
        ensures Holds(after.applied, id) <==> Holds(st.applied, id) || id == c.id
      {
        HoldsSnoc(st.applied, c, id);
      }
      forall d <- after.applied
        ensures d.id in after.rows && SameContent(after.rows[d.id], d)
      {
        if d in st.applied {
          HoldsMember(st.applied, d);
        } else {
          assert d == c;
        }
      }
    }
  }

  lemma NotApplied<S>(st: State<S>, id: string)
    requires Recorded(st) && (id !in st.rows || st.rows[id].status != Applied)
    ensures !Holds(st.applied, id)
  {
    hide Print;
  }

  lemma HoldsMember(commands: seq<Command>, c: Command)
    requires c in commands
    ensures Holds(commands, c.id)
  {
  }

  lemma HoldsSnoc(commands: seq<Command>, c: Command, id: string)
    ensures Holds(commands + [c], id) <==> Holds(commands, id) || id == c.id
  {
    assert c in commands + [c];
    assert forall d <- commands :: d in commands + [c];
  }

  lemma DistinctSnoc(commands: seq<Command>, c: Command)
    requires DistinctIds(commands) && !Holds(commands, c.id)
    ensures DistinctIds(commands + [c])
  {
    assert forall i :: 0 <= i < |commands| ==> commands[i] in commands;
  }

  lemma PersistIsSound<S>(h: Handler<S>, st: State<S>, c: Command)
    requires Recorded(st)
    ensures Recorded(PersistFailed(st, c)) && Handles(h, st, PersistFailed(st, c))
  {
    hide Print, Fold, AllDone, Handles;
    HandlesNothing(h, st, PersistFailed(st, c));
  }

  lemma PollOneIsSound<S>(h: Handler<S>, hub: Hub<S>, d: Delivery, fate: Fate)
    requires Recorded(hub.state)
    ensures Recorded(PollOne(h, hub, d, fate).0.state) && Handles(h, hub.state, PollOne(h, hub, d, fate).0.state)
  {
    hide Recorded, ApplyCommand, Handles;
    HandlesNothing(h, hub.state, hub.state);
    if d.WellFormed? {
      PersistIsSound(h, hub.state, d.command);
      if ApplyCommand(h, hub.state, d.command).Some? {
        ApplyIsSound(h, hub.state, d.command);
      }
    }
  }

  /**
   Whatever is delivered, replayed, reordered or altered, and whatever fails or is lost, a poll takes
   the application through the fold of the handlers over the newly applied commands, each applied
   once ever, and un-applies none.
   */
  lemma {:induction false} PollIsSound<S>(h: Handler<S>, hub: Hub<S>, deliveries: seq<Delivery>, fates: seq<Fate>)
    requires Recorded(hub.state)
    ensures Recorded(Poll(h, hub, deliveries, fates).state)
    ensures Handles(h, hub.state, Poll(h, hub, deliveries, fates).state)
    decreases |deliveries|
  {
    hide Recorded, PollOne, Handles;
    if deliveries == [] || fates == [] {
      HandlesNothing(h, hub.state, hub.state);
    } else {
      var (next, more) := PollOne(h, hub, deliveries[0], fates[0]);
      PollOneIsSound(h, hub, deliveries[0], fates[0]);
      PollIsSound(h, next, deliveries[1..], fates[1..]);
      HandlesTwice(h, hub.state, next.state, Poll(h, next, deliveries[1..], fates[1..]).state);
    }
  }

  /** A conflicting delivery changes neither the state nor what has been applied or frozen. */
  lemma ConflictIsHarmless<S>(h: Handler<S>, hub: Hub<S>, c: Command, fate: Fate)
    requires c.id in hub.state.rows && !SameContent(hub.state.rows[c.id], c)
    ensures var st, after := hub.state, PollOne(h, hub, WellFormed(c), fate).0;
      && after.state.app == st.app && after.state.applied == st.applied && after.acked == hub.acked
      && after.state.rows.Keys == st.rows.Keys
      && (forall id <- st.rows :: id != c.id ==> after.state.rows[id] == st.rows[id])
      && (st.rows[c.id].status == Applied ==> after.state.rows[c.id] == st.rows[c.id])
      && after.state.rows[c.id] == st.rows[c.id].(status := after.state.rows[c.id].status,
           attempts := after.state.rows[c.id].attempts)
  {
  }

  /** A command listed again after it was applied is acknowledged again, and nothing else happens. */
  lemma ReplayIsNoOp<S>(h: Handler<S>, st: State<S>, c: Command)
    requires Recorded(st) && c in st.applied && c.version == COMMAND_SCHEMA_VERSION
    ensures ApplyCommand(h, st, c) == Some(st)
  {
    hide Print;
    HoldsMember(st.applied, c);
  }

  /** So is one that Master lists again with the members of its payload in another order. */
  lemma ReorderedReplayIsNoOp<S>(h: Handler<S>, st: State<S>, c: Command, d: Command)
    requires Recorded(st) && c in st.applied && d.version == COMMAND_SCHEMA_VERSION
    requires d == c.(payload := d.payload) && Same(c.payload, d.payload)
    ensures ApplyCommand(h, st, d) == Some(st)
  {
    hide Print, Same;
    HoldsMember(st.applied, c);
    PrintIgnoresOrder(c.payload, d.payload);
  }

  // ----- A Master that lists its unacknowledged commands in order -----

  function Unacked(issued: seq<Command>, acked: set<string>): seq<Command> {
    if issued == [] then []
    else (if issued[0].id in acked then [] else [issued[0]]) + Unacked(issued[1..], acked)
  }

  function Deliver(commands: seq<Command>): seq<Delivery> {
    if commands == [] then [] else [WellFormed(commands[0])] + Deliver(commands[1..])
  }

  /** Master's side of the exchange. */
  datatype Exchange<S> = Exchange(issued: seq<Command>, hub: Hub<S>)

  datatype Step<L> =
    | Issue(command: Command)
    | PollStep(fates: seq<Fate>) // as many commands as the limit allows
    | LocalStep(call: L)         // whatever the application does in between

  type LocalCall<!S, !L> = (S, L) -> S

  function ApplyStep<S, L>(h: Handler<S>, local: LocalCall<S, L>, x: Exchange<S>, s: Step<L>): Exchange<S> {
    match s
    case Issue(c) =>
      if (forall d <- x.issued :: d.id != c.id) then x.(issued := x.issued + [c]) else x
    case PollStep(fates) => x.(hub := Poll(h, x.hub, Deliver(Unacked(x.issued, x.hub.acked)), fates))
    case LocalStep(call) => x.(hub := x.hub.(state := x.hub.state.(app := local(x.hub.state.app, call))))
  }

  function RunSteps<S, L>(h: Handler<S>, local: LocalCall<S, L>, x: Exchange<S>, steps: seq<Step<L>>): Exchange<S> {
    if steps == [] then x
    else ApplyStep(h, local, RunSteps(h, local, x, steps[..|steps| - 1]), steps[|steps| - 1])
  }

  /** The applied commands are the first ones issued, and everything acknowledged is among them. */
  ghost predicate InStep<S>(issued: seq<Command>, hub: Hub<S>) {
    && DistinctIds(issued)
    && hub.state.applied <= issued
    && (forall id <- hub.acked :: Holds(hub.state.applied, id))
    && (forall c <- issued :: c.id in hub.state.rows ==> SameContent(hub.state.rows[c.id], c))
  }

  lemma {:induction false} UnackedConcat(a: seq<Command>, b: seq<Command>, acked: set<string>)
    ensures Unacked(a + b, acked) == Unacked(a, acked) + Unacked(b, acked)
    decreases |a|
  {
    if a == [] {
      assert a + b == b;
    } else {
      assert (a + b)[1..] == a[1..] + b;
      UnackedConcat(a[1..], b, acked);
    }
  }

  lemma {:induction false} UnackedAll(issued: seq<Command>, acked: set<string>)
    requires forall c <- issued :: c.id !in acked
    ensures Unacked(issued, acked) == issued
    decreases |issued|
  {
    if issued != [] {
      assert issued[0] in issued && forall c <- issued[1..] :: c in issued;
      UnackedAll(issued[1..], acked);
    }
  }

  lemma {:induction false} UnackedFrom(issued: seq<Command>, acked: set<string>)
    ensures forall c <- Unacked(issued, acked) :: c in issued
    decreases |issued|
  {
    if issued != [] {
      UnackedFrom(issued[1..], acked);
    }
  }

  /** What is listed: `k` commands that have been applied, then those issued after them. */
  ghost predicate Listed(issued: seq<Command>, applied: seq<Command>, pending: seq<Command>, k: nat) {
    && |applied| <= |issued| && k <= |pending|
    && pending[k..] == issued[|applied|..]
    && forall i :: 0 <= i < k ==> pending[i] in applied
  }

  lemma UnackedIsListed<S>(issued: seq<Command>, hub: Hub<S>) returns (k: nat)
    requires InStep(issued, hub)
    ensures Listed(issued, hub.state.applied, Unacked(issued, hub.acked), k)
  {
    hide Unacked;
    var applied := hub.state.applied;
    var rest := issued[|applied|..];
    assert issued == applied + rest;
    NoneAcked(issued, hub);
    UnackedConcat(applied, rest, hub.acked);
    UnackedAll(rest, hub.acked);
    UnackedFrom(applied, hub.acked);
    k := |Unacked(applied, hub.acked)|;
    SplitListed(Unacked(applied, hub.acked), rest, applied);
  }

  lemma NoneAcked<S>(issued: seq<Command>, hub: Hub<S>)
    requires InStep(issued, hub)
    ensures forall c <- issued[|hub.state.applied|..] :: c.id !in hub.acked
  {
    hide DistinctIds, Holds, SameContent;
    var applied := hub.state.applied;
    forall j | |applied| <= j < |issued|
      ensures issued[j].id !in hub.acked
    {
      NotYetApplied(issued, applied, j);
    }
  }

  lemma SplitListed(front: seq<Command>, rest: seq<Command>, applied: seq<Command>)
    requires forall c <- front :: c in applied
    ensures (front + rest)[|front|..] == rest && forall i :: 0 <= i < |front| ==> (front + rest)[i] in applied
  {
    assert forall i :: 0 <= i < |front| ==> (front + rest)[i] == front[i];
  }

  /** Only commands of the supported version have been applied. */
  ghost predicate Supported(applied: seq<Command>) {
    forall c <- applied :: c.version == COMMAND_SCHEMA_VERSION
  }

  ghost predicate Faithful<S>(issued: seq<Command>, hub: Hub<S>) {
    && Recorded(hub.state) && InStep(issued, hub) && Supported(hub.state.applied)
    && forall id <- hub.state.rows :: Holds(issued, id)
  }

  lemma MemberOfIssued(issued: seq<Command>, c: Command, d: Command)
    requires DistinctIds(issued) && c in issued && d in issued && c.id == d.id
    ensures c == d
  {
    var i :| 0 <= i < |issued| && issued[i] == c;
    var j :| 0 <= j < |issued| && issued[j] == d;
  }

  /** Processing the next listed command: a replay, or the first command not yet applied. */
  lemma NextListed<S>(h: Handler<S>, issued: seq<Command>, hub: Hub<S>, pending: seq<Command>, k: nat, fate: Fate)
    returns (k': nat)
    requires Faithful(issued, hub) && pending != [] && Listed(issued, hub.state.applied, pending, k)
    ensures Faithful(issued, PollOne(h, hub, WellFormed(pending[0]), fate).0)
    ensures var (after, more) := PollOne(h, hub, WellFormed(pending[0]), fate);
      more ==> Listed(issued, after.state.applied, pending[1..], k')
  {
    hide Print, Fold, AllDone, DistinctIds, Holds;
    var c := pending[0];
    var applied := hub.state.applied;
    PollOneIsSound(h, hub, WellFormed(c), fate);
    if k > 0 {
      ReplayIsNoOp(h, hub.state, c);
      k' := k - 1;
      HoldsMember(applied, c);
      assert pending[1..][k'..] == pending[k..];
    } else {
      k' := 0;
      assert pending == issued[|applied|..] && c == issued[|applied|];
      assert pending[1..][0..] == issued[|applied| + 1..];
      FirstNotApplied(h, issued, hub, c, fate);
    }
  }

  lemma FirstNotApplied<S>(h: Handler<S>, issued: seq<Command>, hub: Hub<S>, c: Command, fate: Fate)
    requires Faithful(issued, hub)
    requires |hub.state.applied| < |issued| && c == issued[|hub.state.applied|]
    ensures var (after, more) := PollOne(h, hub, WellFormed(c), fate);
      && Faithful(issued, after)
      && (more ==> after.state.applied == hub.state.applied + [c])
  {
    hide Print, Fold, AllDone, DistinctIds, Holds;
    var applied, after := hub.state.applied, PollOne(h, hub, WellFormed(c), fate).0;
    PollOneIsSound(h, hub, WellFormed(c), fate);
    NotYetApplied(issued, applied, |applied|);
    assert c.id in hub.state.rows ==> hub.state.rows[c.id].status != Applied;
    HoldsMember(issued, c);
    assert applied + [c] <= issued;
    forall id: string
      ensures Holds(applied + [c], id) <==> Holds(applied, id) || id == c.id
    {
      HoldsSnoc(applied, c, id);
    }
    forall d <- issued | d.id in after.state.rows
      ensures SameContent(after.state.rows[d.id], d)
    {
      if d.id == c.id {
        MemberOfIssued(issued, c, d);
      }
    }
  }

  lemma NotYetApplied(issued: seq<Command>, applied: seq<Command>, j: nat)
    requires DistinctIds(issued) && applied <= issued && |applied| <= j < |issued|
    ensures !Holds(applied, issued[j].id)
  {
    forall d <- applied
      ensures d.id != issued[j].id
    {
      var i :| 0 <= i < |applied| && applied[i] == d;
      assert issued[i] == d;
    }
  }

  lemma {:induction false} PollIsFaithful<S>(h: Handler<S>, issued: seq<Command>, hub: Hub<S>, pending: seq<Command>,
                                             k: nat, fates: seq<Fate>)
    requires Faithful(issued, hub) && Listed(issued, hub.state.applied, pending, k)
    ensures Faithful(issued, Poll(h, hub, Deliver(pending), fates))
    decreases |pending|
  {
    hide Faithful, PollOne, Listed;
    if pending != [] && fates != [] {
      var k' := NextListed(h, issued, hub, pending, k, fates[0]);
      var (after, more) := PollOne(h, hub, WellFormed(pending[0]), fates[0]);
      if more {
        PollIsFaithful(h, issued, after, pending[1..], k', fates[1..]);
      }
    }
  }

  lemma IssueIsFaithful<S>(issued: seq<Command>, hub: Hub<S>, c: Command)
    requires Faithful(issued, hub) && forall d <- issued :: d.id != c.id
    ensures Faithful(issued + [c], hub)
  {
    hide Print;
    DistinctSnoc(issued, c);
    assert c.id !in hub.state.rows;
    forall id <- hub.state.rows
      ensures Holds(issued + [c], id)
    {
      HoldsSnoc(issued, c, id);
    }
  }

  /** What the application does on its own is nothing to the inbox. */
  lemma LocalIsFaithful<S>(issued: seq<Command>, hub: Hub<S>, app: S)
    requires Faithful(issued, hub)
    ensures Faithful(issued, hub.(state := hub.state.(app := app)))
  {
    hide Print;
  }

  predicate Fresh<S>(x: Exchange<S>) {
    x.issued == [] && x.hub.acked == {} && x.hub.state.rows == map[] && x.hub.state.applied == []
  }

  lemma {:induction false} RunIsFaithful<S, L>(h: Handler<S>, local: LocalCall<S, L>, x: Exchange<S>,
      steps: seq<Step<L>>)
    requires Fresh(x)
    ensures var x' := RunSteps(h, local, x, steps); Faithful(x'.issued, x'.hub)
    decreases |steps|
  {
    hide Faithful, Poll, Listed;
    if steps == [] {
      FreshIsFaithful(x);
    } else {
      RunIsFaithful(h, local, x, steps[..|steps| - 1]);
      var before := RunSteps(h, local, x, steps[..|steps| - 1]);
      match steps[|steps| - 1]
      case Issue(c) =>
        if forall d <- before.issued :: d.id != c.id {
          IssueIsFaithful(before.issued, before.hub, c);
        }
      case PollStep(fates) =>
        FaithfulInStep(before.issued, before.hub);
        var k := UnackedIsListed(before.issued, before.hub);
        PollIsFaithful(h, before.issued, before.hub, Unacked(before.issued, before.hub.acked), k, fates);
      case LocalStep(call) =>
        LocalIsFaithful(before.issued, before.hub, local(before.hub.state.app, call));
    }
  }

  lemma FaithfulInStep<S>(issued: seq<Command>, hub: Hub<S>)
    requires Faithful(issued, hub)
    ensures InStep(issued, hub) && Recorded(hub.state)
  {
  }

  lemma FreshIsFaithful<S>(x: Exchange<S>)
    requires Fresh(x)
    ensures Faithful(x.issued, x.hub)
  {
  }

  // ----- The history of a run -----

  /** What changed the application: a command from Master, or a call of its own. */
  datatype Act<L> = Did(command: Command) | Called(call: L)

  ghost function Dids<L>(commands: seq<Command>): (acts: seq<Act<L>>)
    ensures |acts| == |commands|
  {
    seq(|commands|, i requires 0 <= i < |commands| => Did(commands[i]))
  }

  /** Everything that changed the application in a run, in order of commit. */
  ghost function History<S, L>(h: Handler<S>, local: LocalCall<S, L>, x: Exchange<S>,
      steps: seq<Step<L>>): seq<Act<L>> {
    if steps == [] then []
    else
      var init, s := steps[..|steps| - 1], steps[|steps| - 1];
      var before, after := RunSteps(h, local, x, init), RunSteps(h, local, x, steps);
      History(h, local, x, init)
      + match s
        case Issue(_) => []
        case LocalStep(call) => [Called(call)]
        case PollStep(_) =>
          if |before.hub.state.applied| <= |after.hub.state.applied|
          then Dids(after.hub.state.applied[|before.hub.state.applied|..]) else []
  }

  ghost function CommandsOf<L>(acts: seq<Act<L>>): seq<Command> {
    if acts == [] then []
    else
      var last := acts[|acts| - 1];
      CommandsOf(acts[..|acts| - 1]) + if last.Did? then [last.command] else []
  }

  /** The application after these acts, one after the other. */
  ghost function Replay<S, L>(h: Handler<S>, local: LocalCall<S, L>, app: S, acts: seq<Act<L>>): S {
    if acts == [] then app
    else
      var before := Replay(h, local, app, acts[..|acts| - 1]);
      match acts[|acts| - 1]
      case Called(call) => local(before, call)
      case Did(c) => match h(before, c) { case Done(after) => after case Raised(dirty) => dirty }
  }

  /** No handler raised. */
  ghost predicate NoneRaised<S, L>(h: Handler<S>, local: LocalCall<S, L>, app: S, acts: seq<Act<L>>)
    decreases |acts|
  {
    acts == []
    || (NoneRaised(h, local, app, acts[..|acts| - 1])
        && (acts[|acts| - 1].Did? ==> h(Replay(h, local, app, acts[..|acts| - 1]), acts[|acts| - 1].command).Done?))
  }

  lemma {:induction false} ReplayDids<S, L>(h: Handler<S>, local: LocalCall<S, L>, app: S, acts: seq<Act<L>>,
      commands: seq<Command>)
    requires NoneRaised(h, local, app, acts) && AllDone(h, Replay(h, local, app, acts), commands)
    ensures NoneRaised(h, local, app, acts + Dids(commands))
    ensures Replay(h, local, app, acts + Dids(commands)) == Fold(h, Replay(h, local, app, acts), commands)
    ensures CommandsOf(acts + Dids(commands)) == CommandsOf(acts) + commands
    decreases |commands|
  {
    hide NoneRaised, Replay, CommandsOf;
    if commands == [] {
      assert acts + Dids<L>(commands) == acts && CommandsOf(acts) + commands == CommandsOf(acts);
    } else {
      var init, c := commands[..|commands| - 1], commands[|commands| - 1];
      ReplayDids(h, local, app, acts, init);
      ReplayDid(h, local, app, acts + Dids<L>(init), c);
      assert acts + Dids<L>(commands) == acts + Dids<L>(init) + [Did(c)];
      assert CommandsOf(acts) + commands == CommandsOf(acts) + init + [c];
    }
  }

  lemma ReplayDid<S, L>(h: Handler<S>, local: LocalCall<S, L>, app: S, acts: seq<Act<L>>, c: Command)
    requires NoneRaised(h, local, app, acts) && h(Replay(h, local, app, acts), c).Done?
    ensures NoneRaised(h, local, app, acts + [Did(c)])
    ensures Replay(h, local, app, acts + [Did(c)]) == h(Replay(h, local, app, acts), c).after
    ensures CommandsOf(acts + [Did(c)]) == CommandsOf(acts) + [c]
  {
    assert (acts + [Did(c)])[..|acts|] == acts;
  }

  lemma ReplayCall<S, L>(h: Handler<S>, local: LocalCall<S, L>, app: S, acts: seq<Act<L>>, call: L)
    requires NoneRaised(h, local, app, acts)
    ensures NoneRaised(h, local, app, acts + [Called(call)])
    ensures Replay(h, local, app, acts + [Called(call)]) == local(Replay(h, local, app, acts), call)
    ensures CommandsOf(acts + [Called(call)]) == CommandsOf(acts)
  {
    assert (acts + [Called(call)])[..|acts|] == acts;
  }

  /** The application is where the acts of its history have taken it, and no handler among them raised. */
  lemma {:induction false} RunIsReplay<S, L>(h: Handler<S>, local: LocalCall<S, L>, x: Exchange<S>, steps: seq<Step<L>>)
    requires Fresh(x)
    ensures var st, acts := RunSteps(h, local, x, steps).hub.state, History(h, local, x, steps);
      && st.app == Replay(h, local, x.hub.state.app, acts) && NoneRaised(h, local, x.hub.state.app, acts)
      && CommandsOf(acts) == st.applied
    decreases |steps|
  {
    hide Faithful, Poll, Replay, NoneRaised, CommandsOf, Fold, AllDone, Recorded, Dids;
    if steps == [] {
      NothingReplayed(h, local, x.hub.state.app);
    } else {
      var init := steps[..|steps| - 1];
      RunIsReplay(h, local, x, init);
      var before, after, acts := RunSteps(h, local, x, init), RunSteps(h, local, x, steps), History(h, local, x, init);
      match steps[|steps| - 1]
      case Issue(c) => assert acts + [] == acts;
      case LocalStep(call) => ReplayCall(h, local, x.hub.state.app, acts, call);
      case PollStep(fates) =>
        RunIsFaithful(h, local, x, init);
        FaithfulInStep(before.issued, before.hub);
        PollIsSound(h, before.hub, Deliver(Unacked(before.issued, before.hub.acked)), fates);
        var applied := before.hub.state.applied;
        ReplayDids(h, local, x.hub.state.app, acts, after.hub.state.applied[|applied|..]);
        assert after.hub.state.applied == applied + after.hub.state.applied[|applied|..];
    }
  }

  lemma NothingReplayed<S, L>(h: Handler<S>, local: LocalCall<S, L>, app: S)
    ensures Replay(h, local, app, []) == app && NoneRaised(h, local, app, []) && CommandsOf<L>([]) == []
  {
  }

  /**
   In every run with a Master that lists its unacknowledged commands in order, whatever the
   application does in between: the commands applied are the first ones issued, each exactly once;
   only applied commands have been acknowledged; and the application is where these commands, at
   their points among its own calls, have taken it.
   */
  lemma AppliedInOrderOnce<S, L>(h: Handler<S>, local: LocalCall<S, L>, x: Exchange<S>, steps: seq<Step<L>>)
    requires Fresh(x)
    ensures var x', acts := RunSteps(h, local, x, steps), History(h, local, x, steps); var st := x'.hub.state;
      && st.applied <= x'.issued && DistinctIds(x'.issued)
      && CommandsOf(acts) == st.applied && NoneRaised(h, local, x.hub.state.app, acts)
      && st.app == Replay(h, local, x.hub.state.app, acts)
      && (forall id <- x'.hub.acked :: Holds(st.applied, id))
      && forall c <- x'.issued :: c in st.applied <==> c.id in st.rows && st.rows[c.id].status == Applied
  {
    hide RunSteps, Print, Fold, AllDone, Replay, NoneRaised, CommandsOf, History;
    RunIsFaithful(h, local, x, steps);
    RunIsReplay(h, local, x, steps);
    var x' := RunSteps(h, local, x, steps);
    var st := x'.hub.state;
    forall c <- x'.issued
      ensures c in st.applied <==> Holds(st.applied, c.id)
    {
      if Holds(st.applied, c.id) {
        var d :| d in st.applied && d.id == c.id;
        MemberOfIssued(x'.issued, c, d);
      }
    }
  }
}
