/**
 How far a poll gets (app/services/master_sync.py:1102-1246): while Master can be reached, a poll applies and
 acknowledges every command up to the first one that cannot be handled, whatever failed before.
 */
module InboxProgress {
  import opened Inbox

  /** How many of these commands, handled one after the other, come before the first that cannot be. */
  ghost function Reach<S>(h: Handler<S>, app: S, commands: seq<Command>): (n: nat)
    ensures n <= |commands|
  {
    if commands == [] || commands[0].version != 1 then 0
    else
      match h(app, commands[0])
      case Raised(_) => 0
      case Done(after) => 1 + Reach(h, after, commands[1..])
  }

  /** The commands not yet applied. */
  ghost function Waiting<S>(issued: seq<Command>, hub: Hub<S>): seq<Command> {
    if |hub.state.applied| <= |issued| then issued[|hub.state.applied|..] else []
  }

  /** Every id that is not acknowledged is listed. */
  ghost predicate AllListed(issued: seq<Command>, acked: set<string>, pending: seq<Command>) {
    forall c <- issued :: c.id in acked || c in pending
  }

  ghost predicate AllAcknowledged(commands: seq<Command>, acked: set<string>) {
    forall c <- commands :: c.id in acked
  }

  /** The row of a command that was refused: failed, with one more attempt. */
  ghost predicate RefusedOnce(before: map<string, Row>, after: map<string, Row>, id: string) {
    id in after && after[id].status == Failed
    && after[id].attempts == 1 + if id in before then before[id].attempts else 0
  }

  // ----- One command -----

  /** A command that was applied before is acknowledged now. */
  lemma ReplayGoesOn<S>(h: Handler<S>, issued: seq<Command>, hub: Hub<S>, c: Command)
    requires Faithful(issued, hub) && c in hub.state.applied
    ensures PollOne(h, hub, WellFormed(c), Acknowledged) == (hub.(acked := hub.acked + {c.id}), true)
  {
    hide Recorded, InStep;
    ReplayIsNoOp(h, hub.state, c);
  }

  /** The first command not yet applied: no row, or a failed one with this content. */
  lemma FirstIsOpen<S>(issued: seq<Command>, hub: Hub<S>, c: Command)
    requires Faithful(issued, hub) && |hub.state.applied| < |issued| && c == issued[|hub.state.applied|]
    ensures c.id in hub.state.rows ==> SameContent(hub.state.rows[c.id], c) && hub.state.rows[c.id].status != Applied
  {
    hide DistinctIds, Holds, SameContent, Supported;
    NotYetApplied(issued, hub.state.applied, |hub.state.applied|);
  }

  lemma FirstGoesOn<S>(h: Handler<S>, issued: seq<Command>, hub: Hub<S>, c: Command)
    requires Faithful(issued, hub) && |hub.state.applied| < |issued| && c == issued[|hub.state.applied|]
    requires c.version == 1 && h(hub.state.app, c).Done?
    ensures var (after, more) := PollOne(h, hub, WellFormed(c), Acknowledged);
            more && after.acked == hub.acked + {c.id}
            && after.state.app == h(hub.state.app, c).after && after.state.applied == hub.state.applied + [c]
            && c.id in after.state.rows && after.state.rows == hub.state.rows[c.id := after.state.rows[c.id]]
  {
    hide Faithful, SameContent;
    FirstIsOpen(issued, hub, c);
  }

  lemma FirstIsRefused<S>(h: Handler<S>, issued: seq<Command>, hub: Hub<S>, c: Command)
    requires Faithful(issued, hub) && |hub.state.applied| < |issued| && c == issued[|hub.state.applied|]
    requires c.version != 1 || h(hub.state.app, c).Raised?
    ensures var (after, more) := PollOne(h, hub, WellFormed(c), Acknowledged);
            !more && after.acked == hub.acked && after.state.app == hub.state.app
            && after.state.applied == hub.state.applied && RefusedOnce(hub.state.rows, after.state.rows, c.id)
  {
    hide Faithful, SameContent;
    FirstIsOpen(issued, hub, c);
  }

  // ----- One poll -----

  /** What a poll that is acknowledged throughout does. */
  ghost predicate Progress<S>(h: Handler<S>, issued: seq<Command>, hub: Hub<S>, after: Hub<S>) {
    var n := |hub.state.applied| + Reach(h, hub.state.app, Waiting(issued, hub));
    n <= |issued| && after.state.applied == issued[..n]
    && AllAcknowledged(issued[..n], after.acked)
    && (n < |issued| ==> RefusedOnce(hub.state.rows, after.state.rows, issued[n].id))
  }

  lemma {:induction false} PollReaches<S>(h: Handler<S>, issued: seq<Command>, hub: Hub<S>, pending: seq<Command>,
                                          k: nat, fates: seq<Fate>)
    requires Faithful(issued, hub) && Listed(issued, hub.state.applied, pending, k)
    requires AllListed(issued, hub.acked, pending)
    requires |fates| >= |pending| && forall f <- fates :: f == Acknowledged
    ensures Progress(h, issued, hub, Poll(h, hub, Deliver(pending), fates))
    decreases |pending|
  {
    hide Faithful, PollOne, Listed, AllListed, Progress, Reach;
    if pending == [] {
      AllDoneAlready(h, issued, hub, k);
    } else {
      var c := pending[0];
      assert fates[0] in fates && forall f <- fates[1..] :: f in fates;
      var k' := NextListed(h, issued, hub, pending, k, fates[0]);
      var (next, more) := PollOne(h, hub, WellFormed(c), Acknowledged);
      if more {
        ListedGoesOn(h, issued, hub, pending, k);
        StillListed(issued, hub.acked, pending);
        PollReaches(h, issued, next, pending[1..], k', fates[1..]);
        StepProgresses(h, issued, hub, pending, k, Poll(h, next, Deliver(pending[1..]), fates[1..]));
      } else {
        StopsThere(h, issued, hub, pending, k);
      }
    }
  }

  lemma AllDoneAlready<S>(h: Handler<S>, issued: seq<Command>, hub: Hub<S>, k: nat)
    requires Faithful(issued, hub) && Listed(issued, hub.state.applied, [], k) && AllListed(issued, hub.acked, [])
    ensures Progress(h, issued, hub, hub)
  {
    hide Recorded, Supported, Holds, DistinctIds, SameContent;
    assert issued[..|issued|] == issued;
  }

  lemma StillListed(issued: seq<Command>, acked: set<string>, pending: seq<Command>)
    requires pending != [] && AllListed(issued, acked, pending)
    ensures AllListed(issued, acked + {pending[0].id}, pending[1..])
  {
    assert pending == [pending[0]] + pending[1..];
  }

  lemma ListedGoesOn<S>(h: Handler<S>, issued: seq<Command>, hub: Hub<S>, pending: seq<Command>, k: nat)
    requires Faithful(issued, hub) && pending != [] && Listed(issued, hub.state.applied, pending, k)
    ensures var (next, more) := PollOne(h, hub, WellFormed(pending[0]), Acknowledged);
            more ==> next.acked == hub.acked + {pending[0].id}
  {
    hide Faithful, Listed, Poll;
  }

  /** The first command that cannot be handled stops the poll, with everything before it acknowledged. */
  lemma StopsThere<S>(h: Handler<S>, issued: seq<Command>, hub: Hub<S>, pending: seq<Command>, k: nat)
    requires Faithful(issued, hub) && pending != [] && Listed(issued, hub.state.applied, pending, k)
    requires AllListed(issued, hub.acked, pending)
    requires !PollOne(h, hub, WellFormed(pending[0]), Acknowledged).1
    ensures Progress(h, issued, hub, PollOne(h, hub, WellFormed(pending[0]), Acknowledged).0)
  {
    hide Faithful, PollOne, AllAcknowledged, RefusedOnce, AllListed;
    var c, n := pending[0], |hub.state.applied|;
    if k > 0 {
      ReplayGoesOn(h, issued, hub, c);
      assert false;
    } else {
      assert pending == issued[n..] && c == issued[n];
      if c.version == 1 && h(hub.state.app, c).Done? {
        FirstGoesOn(h, issued, hub, c);
        assert false;
      } else {
        FirstIsRefused(h, issued, hub, c);
        FaithfulInStep(issued, hub);
        BeforeIsAcknowledged(issued, hub.acked, n);
      }
    }
  }

  lemma BeforeIsAcknowledged(issued: seq<Command>, acked: set<string>, n: nat)
    requires DistinctIds(issued) && n <= |issued| && AllListed(issued, acked, issued[n..])
    ensures AllAcknowledged(issued[..n], acked)
  {
    forall i | 0 <= i < n
      ensures issued[i].id in acked
    {
      assert issued[i] in issued && forall j :: n <= j < |issued| ==> issued[j] != issued[i];
    }
  }

  lemma OtherIds(issued: seq<Command>, i: nat, j: nat)
    requires DistinctIds(issued) && i < |issued| && j < |issued| && i != j
    ensures issued[i].id != issued[j].id
  {
  }

  /** One command is handled, and the progress of what is left is that of the whole. */
  lemma OneMoreDone<S>(h: Handler<S>, issued: seq<Command>, hub: Hub<S>, next: Hub<S>, c: Command, after: Hub<S>)
    requires DistinctIds(issued) && |hub.state.applied| < |issued| && c == issued[|hub.state.applied|]
    requires c.version == 1 && h(hub.state.app, c).Done? && next.state.app == h(hub.state.app, c).after
    requires next.state.applied == hub.state.applied + [c] && c.id in next.state.rows
    requires next.state.rows == hub.state.rows[c.id := next.state.rows[c.id]]
    requires Progress(h, issued, next, after)
    ensures Progress(h, issued, hub, after)
  {
    hide AllAcknowledged, DistinctIds;
    assert Waiting(issued, hub)[1..] == issued[|hub.state.applied| + 1..];
    var n := |hub.state.applied| + Reach(h, hub.state.app, Waiting(issued, hub));
    if n < |issued| {
      OtherIds(issued, |hub.state.applied|, n);
    }
  }

  lemma AcksDoNotMatter<S>(h: Handler<S>, issued: seq<Command>, hub: Hub<S>, acked: set<string>, after: Hub<S>)
    requires Progress(h, issued, hub.(acked := acked), after)
    ensures Progress(h, issued, hub, after)
  {
    hide AllAcknowledged, RefusedOnce, Reach;
  }

  lemma StepProgresses<S>(h: Handler<S>, issued: seq<Command>, hub: Hub<S>, pending: seq<Command>, k: nat,
                          after: Hub<S>)
    requires Faithful(issued, hub) && pending != [] && Listed(issued, hub.state.applied, pending, k)
    requires PollOne(h, hub, WellFormed(pending[0]), Acknowledged).1
    requires Progress(h, issued, PollOne(h, hub, WellFormed(pending[0]), Acknowledged).0, after)
    ensures Progress(h, issued, hub, after)
  {
    hide Faithful, PollOne, Progress;
    var c := pending[0];
    if k > 0 {
      ReplayGoesOn(h, issued, hub, c);
      AcksDoNotMatter(h, issued, hub, hub.acked + {c.id}, after);
    } else {
      assert pending == issued[|hub.state.applied|..] && c == issued[|hub.state.applied|];
      if c.version != 1 || h(hub.state.app, c).Raised? {
        FirstIsRefused(h, issued, hub, c);
      } else {
        FirstGoesOn(h, issued, hub, c);
        FaithfulInStep(issued, hub);
        OneMoreDone(h, issued, hub, PollOne(h, hub, WellFormed(c), Acknowledged).0, c, after);
      }
    }
  }

  // ----- Every poll that is acknowledged -----

  lemma {:induction false} AllDoneSplits<S>(h: Handler<S>, app: S, c: Command, rest: seq<Command>)
    ensures AllDone(h, app, [c] + rest) <==> h(app, c).Done? && AllDone(h, h(app, c).after, rest)
    ensures h(app, c).Done? ==> Fold(h, app, [c] + rest) == Fold(h, h(app, c).after, rest)
    decreases |rest|
  {
    var all := [c] + rest;
    if rest == [] {
      assert all == [c] && [c][..0] == [];
    } else {
      AllDoneSplits(h, app, c, rest[..|rest| - 1]);
      assert all[..|all| - 1] == [c] + rest[..|rest| - 1];
    }
  }

  lemma {:induction false} ReachIsWhole<S>(h: Handler<S>, app: S, commands: seq<Command>)
    ensures Reach(h, app, commands) == |commands| <==>
              AllDone(h, app, commands) && forall c <- commands :: c.version == 1
    decreases |commands|
  {
    hide AllDone;
    if commands == [] {
      NoneToDo(h, app);
    } else {
      var c, rest := commands[0], commands[1..];
      assert commands == [c] + rest;
      AllDoneSplits(h, app, c, rest);
      if h(app, c).Done? {
        ReachIsWhole(h, h(app, c).after, rest);
      }
    }
  }

  lemma NoneToDo<S>(h: Handler<S>, app: S)
    ensures AllDone(h, app, [])
  {
  }

  /** A poll of everything unacknowledged, with no reply lost. */
  ghost function QuietPoll<S>(h: Handler<S>, issued: seq<Command>, hub: Hub<S>, fates: seq<Fate>): Hub<S> {
    Poll(h, hub, Deliver(Unacked(issued, hub.acked)), fates)
  }

  ghost predicate Quiet<S>(issued: seq<Command>, hub: Hub<S>, fates: seq<Fate>) {
    |fates| >= |Unacked(issued, hub.acked)| && forall f <- fates :: f == Acknowledged
  }

  lemma {:induction false} UnackedListsAll(issued: seq<Command>, acked: set<string>)
    ensures AllListed(issued, acked, Unacked(issued, acked))
    decreases |issued|
  {
    if issued != [] {
      UnackedListsAll(issued[1..], acked);
      assert issued == [issued[0]] + issued[1..];
    }
  }

  /**
   A poll that is acknowledged throughout applies, in order, every command up to the first that cannot be handled
   in the state it would meet; it acknowledges all of them; and that first one is recorded as failed. Rows of
   earlier failures do not matter.
   */
  lemma PollGoesOn<S>(h: Handler<S>, issued: seq<Command>, hub: Hub<S>, fates: seq<Fate>)
    requires Faithful(issued, hub) && Quiet(issued, hub, fates)
    ensures var after := QuietPoll(h, issued, hub, fates);
            Progress(h, issued, hub, after) && Handles(h, hub.state, after.state)
  {
    hide Faithful, Unacked, Poll, Progress, Handles;
    FaithfulInStep(issued, hub);
    UnackedListsAll(issued, hub.acked);
    var k := UnackedIsListed(issued, hub);
    PollReaches(h, issued, hub, Unacked(issued, hub.acked), k, fates);
    PollIsSound(h, hub, Deliver(Unacked(issued, hub.acked)), fates);
  }

  /** Nothing is left to do, and the application is where the commands have taken it. */
  ghost predicate CaughtUp<S>(h: Handler<S>, issued: seq<Command>, hub: Hub<S>, after: Hub<S>) {
    after.state.applied == issued && AllAcknowledged(issued, after.acked)
    && after.state.app == Fold(h, hub.state.app, Waiting(issued, hub))
  }

  /** So everything is applied and acknowledged exactly when no handler would raise and every version is known. */
  lemma PollCatchesUp<S>(h: Handler<S>, issued: seq<Command>, hub: Hub<S>, fates: seq<Fate>)
    requires Faithful(issued, hub) && Quiet(issued, hub, fates)
    ensures CaughtUp(h, issued, hub, QuietPoll(h, issued, hub, fates)) <==>
              AllDone(h, hub.state.app, Waiting(issued, hub)) && forall c <- Waiting(issued, hub) :: c.version == 1
  {
    hide Faithful, Quiet, QuietPoll, AllDone, Fold, Reach, RefusedOnce, AllAcknowledged;
    PollGoesOn(h, issued, hub, fates);
    ReachIsWhole(h, hub.state.app, Waiting(issued, hub));
    FaithfulInStep(issued, hub);
    assert issued[..|issued|] == issued;
  }

  /** The same at the end of any run, with whatever failures and losses it went through. */
  lemma RunCatchesUp<S, L>(h: Handler<S>, local: LocalCall<S, L>, x: Exchange<S>, steps: seq<Step<L>>, fates: seq<Fate>)
    requires Fresh(x)
    ensures var x' := RunSteps(h, local, x, steps);
            Quiet(x'.issued, x'.hub, fates) ==>
              (CaughtUp(h, x'.issued, x'.hub, RunSteps(h, local, x, steps + [PollStep(fates)]).hub) <==>
                 AllDone(h, x'.hub.state.app, Waiting(x'.issued, x'.hub))
                 && forall c <- Waiting(x'.issued, x'.hub) :: c.version == 1)
  {
    hide Faithful, Quiet, AllDone, CaughtUp, Poll, Waiting;
    RunIsFaithful(h, local, x, steps);
    var x' := RunSteps(h, local, x, steps);
    var all := steps + [PollStep(fates)];
    assert all[..|all| - 1] == steps;
    if Quiet(x'.issued, x'.hub, fates) {
      PollCatchesUp(h, x'.issued, x'.hub, fates);
    }
  }
}
