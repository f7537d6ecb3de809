# Setuora Lite: what its stock, its outbox and its printers guarantee

Setuora Lite is the application a franchise works with: it keeps the franchise's serial-numbered
stock in a local database, queues every change for the central Master, applies the commands Master
sends back, and writes a few documents that other programs read. This project models the parts of
it where several steps have to fit together, and proves what they guarantee over every input and
every run.

- **The outbox and the inbox** (`Outbox`, `OutboxRuns`, `OutboxTheorems`, `OutboxHealing`, `LiteNode`, `Inbox`,
  `InboxProgress`). Events are frozen, queued and sent strictly in sequence over a link that may lose requests and
  replies, while processes stop at any point, leases run out, failures are retried and administrators
  intervene. Commands from Master may be listed again, conflict, or be refused.
- **Frozen events** (`CanonicalJson`, `CanonicalOrder`, `JsonReader`, `CanonicalIdentity`, `Utf8`,
  `FrozenBodies`, `EventContents`). Canonical JSON is read back by a reader of its own, which says what Master finds in each body and
  when two payloads have one digest.
- **The baseline** (`EventEnvelope`, `BaselinePacking`). The first events list the whole stock, packed greedily under
  Master's two limits, with sizes computed before anything is printed.
- **The stock machine** (`StockTypes`, `Fefo`, `FefoDates`, `DraftBatches`, `SubmissionTable`, `DraftTerms`, `StockLedger`,
  `Relocation`, `RelocationEffects`, `RelocationTerms`, `Replacement`, `LabelTerms`, `Transfers`, `TransferTerms`,
  `StockRuns`, `StockTheorems`, `StockRoom`). Units are scanned into draft batches, picked first-expiry-first-out, returned,
  submitted, moved, relabelled, and sent to and received from other franchises.
- **The whole node** (`BatchEvents`, `RelocationEvents`, `QrCommands`, `CommandTerms`, `Shop`, `ShopTheorems`): stock,
  outbox and inbox together, with what each event says about the stock it reports.
- **The expiry projection** (`ExpiryProjection`), **Tally vouchers and their delivery** (`Voucher`,
  `VoucherAmounts`, `TallySync`, `TallyProgress`), and two printers: **amounts in Indian words** (`IndianWords`) and the **`.env` file**
  with its two readers (`EnvText`, `EnvFile`).
- **Inputs at which a promise fails** (`Witnesses`), each named with its condition below.

Code that changes rows step by step is a class whose methods are proved equal to functions on values
(`LiteNode.Node`, `Inbox.MasterInbox`, `StockRoom.Tables`, `TallySync.TallyBatch`); the theorems about
runs are about those functions. Each committed transaction is one step. The clock, fresh UUIDs and
the fate of each network exchange are parameters of the steps, so every theorem holds for all of them.

Beside the functions that compute stand theorems that do not repeat them: `OutboxHealing`, `InboxProgress`,
`FrozenBodies`, `FefoDates`, `SubmissionTable`, `DraftTerms`, `RelocationTerms`, `LabelTerms`, `TransferTerms`,
`CommandTerms`, `VoucherAmounts` and `TallyProgress` say in statuses, dates, keys and exact numbers when each operation
succeeds and what it leaves behind.

## Where the code and its promises part

- The enrolment guard compares with SQL `LIKE` (app/services/master_sync.py:115-131), in which `_`
  matches any character. `GuardExactlyWithoutUnderscore` gives the exact condition: the guard
  recognises only its own franchise code if and only if that code has no underscore.
- A saved code that ends in a dash passes validation but is trimmed when it is used, so such a
  franchise can never reconnect; `ReconnectAcceptedExactly` is an if-and-only-if, and in
  `DashCodeConnectsOnce` a node enrols as `A-` and is refused from then on.
- A key that an old `.env` file defines twice keeps its later, stale line; `WrittenReads` and
  `EnvRoundTrip` give the exact outcome, with that exception (`Shadowed`) written out, and
  `ShadowedUpdateIsLost` is a two-line file whose update no reader sees.
- A unit that sits in a draft batch can still be relabelled, and it can still be put on a transfer and
  dispatched (app/services/transfer.py:110-154 and 193-262 look at no draft). Either makes the batch
  impossible to submit until the item is removed; an audit, which takes units in transit, is only stopped
  by the former and by the confirmation of the transfer. `SubmissionMeetsNoConflict` says that a
  complete open batch is refused for nothing else that the modelled calls can do, `OutOfUseExactly` and
  `SetsOutExactly` which calls take a unit away, and `RelabelledUnitBlocksBatch` and
  `DispatchedUnitBlocksBatch` are the two runs.
- A manifest from Master overwrites the lot and dates of a unit that comes back
  (app/services/transfer.py:366-412), so a unit keeps them in a run exactly as far as manifests agree with the
  rows (`ArrivalKeepsLotsExactly`, `UnitsKeepLots`). In `ManifestOverwritesLot` a unit without a lot is
  dispatched, confirmed, and accepted back with whatever lot and dates the manifest names.
- Unplaced stock with a blank warehouse and with none matches the same move but reads as two
  different places, so asking for all of it is refused. `MixesExactly` gives the condition a caller can
  check: a well-formed line can be refused although its units are there if and only if it asks for two units
  or more and names no location and no warehouse. `UnnamedLineRefused` has such a stock for every line
  that meets the condition.
- A pending return holds back scans of its sale but not bulk picks (app/routers/batches.py:1011-1051): in
  `PendingReturnIsPicked` the pick puts the very unit that waits for its shelf back into the sale.
- Units with status RETURNED can be sold but are not in the baseline (`IsBaselineUnit`, `BaselineOfRun`).
- An unreadable reply from Tally counts as a rejection, after which the voucher may be built anew;
  the claims about a frozen payload are therefore stated between rejections. In `UnreadableReplyIsRebuilt`
  Tally has the first voucher in its books and is then posted a different one.
- The wait after a failed delivery doubles from 2 seconds, but attempts are capped at eleven first, so it ends at 2048
  seconds and the cap of an hour beside it (app/services/master_sync.py:863-865) is never reached (`FailureIsScheduled`).
- A voucher with a negative tax total does not balance, as only positive totals are posted
  (`VoucherBalance`, `BalancedExactly`). Creating a product does not bound its rate
  (app/routers/products.py:147-187), and `UnbalancedPurchase` is a purchase at -5 per cent, posted 5.00 out of
  balance. A sale at such a rate is refused for want of a ledger (`SalesLedgers`).

## Model

| member | source | states |
|---|---|---|
| OutboxRuns.RunKeepsValid | app/services/master_sync.py:868-1070 | In every run of connecting, settings changes, submissions, other events, pushes with any network fate or crash, and admin retries: statuses have the shape SENT, one head, PENDING; Master holds the sent events and at most the next; each submitted batch has one event that agrees with its status; the baseline comes first under one code. |
| OutboxTheorems.ExactlyOnceInOrder | app/services/master_sync.py:924-1070 | Master's log is a prefix of the outbox, with each frozen body once and ids distinct; with k events SENT its length is k or k+1. |
| OutboxTheorems.RunExtends | app/services/master_sync.py:260-321 | Over any continuation, queued bodies, digests and ids never change and Master's log only grows. |
| OutboxTheorems.PushDrains | app/services/master_sync.py:924-1070 | While Master answers, one push with a large enough limit delivers the whole queue, whatever the earlier losses left behind. |
| OutboxHealing.LossesHeal | app/services/master_sync.py:721-728 | From every valid state: when a turn that claims the head ends in a lost request or reply, a garbled reply, or status 401, 403, 408, 425, 429, 409 for a concurrent ingest, or 500 and above, the head has a next attempt within the hour, and a push that is answered from then on drains the queue without an administrator. |
| OutboxHealing.FailureIsScheduled | app/services/master_sync.py:863-888 | The next attempt is 2 seconds later at first, and twice as long each time up to 2048; after any other failure there is none. |
| OutboxHealing.RefusalsWait | app/services/master_sync.py:868-1070 | After any other failure, whatever else is done in whatever order, nothing is sent and no queued event changes until that event is retried; then an answered push drains the queue. |
| OutboxHealing.InterruptionsHeal | app/services/master_sync.py:939-981 | A process that stops after its claim heals as well, once the lease is over. |
| OutboxHealing.NothingBeforeDue | app/services/master_sync.py:939-969 | Before the head is due, a turn changes nothing. |
| OutboxTheorems.CursorAlwaysAccepted | app/services/master_sync.py:849-859 | The cursor Master reports passes the bounded reconnect check in every reachable state. |
| OutboxTheorems.CursorAcceptedExactly | app/services/master_sync.py:849-859 | In every reachable state the check accepts a reported cursor if and only if it lies between the events sent and the events queued, and its successor is the next one. |
| OutboxTheorems.BatchesReportedOnce | app/routers/batches.py:1163-1197 | A draft has no event, a submitted batch exactly one, and it is SYNCED exactly when that event is SENT. |
| OutboxTheorems.BaselineComesFirst | app/services/master_sync.py:279-285 | A non-empty outbox starts with a non-empty run of baseline events under the configured code, and has none later. |
| OutboxTheorems.CodeIsLocked | app/routers/lite_sync.py:103-121 | Once anything is queued, no step changes the franchise code. |
| OutboxTheorems.FirstCodeAcceptedExactly | app/routers/lite_sync.py:103-121 | Before anything is queued, a code can be saved if and only if it fits the pattern and is none of the ten placeholders. |
| OutboxTheorems.BaselineListsStock | app/services/master_sync.py:479-548 | The baseline events are exactly the parts of an order-preserving packing of the listed stock, or one empty marker. |
| OutboxTheorems.BaselineAccepted | app/services/master_sync.py:479-548 | With fresh ids, every part of a packed baseline is accepted by the enqueue checks. |
| OutboxTheorems.ReconnectAcceptedExactly | app/routers/lite_sync.py:103-121 | An enrolled node may reconnect under its saved code if and only if that code is valid and does not end in a dash. |
| OutboxTheorems.MarkerMatches | app/services/master_sync.py:111-131 | Without an underscore in its code, the guard accepts a marker, of a part or of an empty baseline, if and only if it is its own. |
| OutboxTheorems.GuardExactlyWithoutUnderscore | app/services/master_sync.py:111-131 | The guard recognises no foreign marker, of any form, if and only if its code has no underscore. |
| LiteNode.Node.EnqueueOutboxEvent | app/services/master_sync.py:260-321 | The row is inserted, frozen and validated in place; a refusal leaves the tables as they were. |
| LiteNode.Node.EnqueueInitialInventorySnapshot | app/services/master_sync.py:479-548 | Every part of the baseline is queued, or nothing is. |
| LiteNode.Node.SubmitDraft | app/routers/batches.py:1163-1197 | The outbox's half of a submission: a batch leaves the draft state only together with the request it is given (`SubmitOnLite` builds that request). |
| LiteNode.Node.ConnectToMaster | app/routers/lite_sync.py:223-306 | Connecting changes the code and the outbox exactly as the run theorems assume. |
| LiteNode.Node.FailOutboxEvent | app/services/master_sync.py:868-888 | Failure, with its backoff, marks the event and its batch. |
| LiteNode.Node.RetryFailedEvent | app/routers/lite_sync.py:557-585 | Only a failed event with an intact body goes back to the queue, with its batch; its body and every other event stay as they are. |
| LiteNode.Node.Claim | app/services/master_sync.py:939-981 | Lease, due time and body digest decide whether the oldest unsent event is claimed. |
| LiteNode.Node.Deliver | app/services/master_sync.py:983-1068 | Every fate of one request leaves the row, its batch and Master's log as the run theorems assume. |
| LiteNode.Node.PushPendingEvents | app/services/master_sync.py:924-1070 | The push loop computes the whole sequence of turns and stops where the source stops; its result is the number of events that became SENT. |
| Inbox.PollIsSound | app/services/master_sync.py:1092-1164 | Whatever is delivered, the state is the fold of the handlers over the commands applied, each id once, and applied commands are never un-applied. |
| Inbox.ConflictIsHarmless | app/services/master_sync.py:1102-1113 | A command that conflicts with a recorded one changes neither state nor frozen content, un-applies nothing and is not acknowledged. |
| Inbox.ReplayIsNoOp | app/services/master_sync.py:1112-1113 | A command listed again after it was applied changes nothing. |
| Inbox.ReorderedReplayIsNoOp | app/services/master_sync.py:1102-1113 | Nor does one whose payload is listed with its members in another order: the digest is taken of the sorted form. |
| Inbox.RunIsFaithful | app/services/master_sync.py:1204-1289 | With a Master that lists unacknowledged commands in order, every run of polls and of the node's own calls keeps inbox and Master in step. |
| Inbox.AppliedInOrderOnce | app/services/master_sync.py:1204-1289 | Whatever calls fall between the polls, the applied commands are a prefix of Master's issue order, each handled once without raising, only applied commands are acknowledged, and the state is where these commands, at their points among the calls, have taken it. |
| InboxProgress.PollGoesOn | app/services/master_sync.py:1102-1246 | A poll that is acknowledged throughout applies and acknowledges every command up to the first that cannot be handled in the state it meets, and records that one as failed once more; rows of earlier failures do not matter. |
| InboxProgress.PollCatchesUp | app/services/master_sync.py:1102-1246 | Such a poll ends with every issued command applied and acknowledged, and the state at their fold, if and only if no handler would raise and every version is known. |
| InboxProgress.RunCatchesUp | app/services/master_sync.py:1204-1289 | The same at the end of any run of polls, losses, refusals and local calls. |
| Inbox.MasterInbox.ApplyMasterCommand | app/services/master_sync.py:1092-1164 | The method on mutable rows computes the modelled application; after a refusal, rows and application state are the dirty ones that the poll rolls back. |
| Inbox.MasterInbox.PersistFailedCommand | app/services/master_sync.py:1176-1201 | A failure is recorded without touching an applied row or frozen content. |
| Inbox.MasterInbox.PollMasterCommands | app/services/master_sync.py:1204-1289 | The poll loop computes the modelled poll, stopping at the first refusal or lost acknowledgement. |
| CanonicalOrder.SortFieldsSorts | app/services/master_sync.py:162-168 | The members of a printed object are those inserted, in order of their keys. |
| CanonicalOrder.PrintIgnoresOrder | app/services/master_sync.py:162-168 | Two values that differ only in the order in which members were inserted, at any depth, print alike. |
| JsonReader.PrintReadBack | app/services/master_sync.py:162-168 | A reader of RFC 8259 text that knows nothing of the printer reads every printed value back, with the members of each object in order: numbers with their signs, every escape, any nesting. |
| CanonicalIdentity.PrintedAlikeExactly | app/services/master_sync.py:162-172 | Two values print alike if and only if they are the same but for the order in which members were inserted, at any depth. |
| CanonicalIdentity.ContentComparedExactly | app/services/master_sync.py:1102-1111 | Comparing digests, kind and version compares the commands: they are taken for the same if and only if they are, payload included. |
| FrozenBodies.FrozenBodyReads | app/services/master_sync.py:179-202 | For every payload and request, what is read from the frozen body by key: `type`, `occurred_at` and `event_id` are the request's, `sequence` and `schema_version` the row's; `reference`, `actor` and `items` default only when absent; every other key has its payload value; and keys ascend. |
| FrozenBodies.RunReadsOwn | app/services/master_sync.py:260-321 | In every run, each queued body, and each body Master has logged, reads as an event with its own row's id and sequence. |
| EventContents.EnqueuedExactly | app/services/master_sync.py:205-321 | An ordinary event is queued if and only if the node is enrolled, its id is new, and its items and bytes are within Master's limits; its row has never been attempted and is due at once. |
| EventContents.PartTells | app/services/master_sync.py:375-390 | What is read from a baseline part: type, reference, actor, reason, time and items. |
| EventContents.MarkerTells | app/services/master_sync.py:505-521 | The same for the marker of an empty baseline. |
| EventContents.BatchTells | app/services/master_sync.py:324-368 | The same for a submitted batch, by a table of wire types, with every party and tax field. |
| EventContents.ChunkTells | app/services/relocation.py:366-385 | The same for a relocation chunk. |
| EventContents.ReplacementTells | app/services/master_qr.py:226-237 | The same for a replaced label: the old row and the new one. |
| EventContents.SubmissionTells | app/services/master_sync.py:324-372 | A committed submission queues one event, in whose text one snapshot of each unit is read, in scan order, of its row as the submission leaves it. |
| EventContents.RelocationTells | app/services/relocation.py:357-398 | A committed relocation queues events of 1 to 5000 items, in whose texts together the snapshots of the moved units are read, in order, as the move leaves them. |
| CanonicalJson.SortFieldsSize | app/services/master_sync.py:162-168 | Sorting members changes neither their number nor their size in bytes. |
| CanonicalJson.ObjectSize | app/services/master_sync.py:162-168 | The byte size of a printed object is the sum over its members plus punctuation, in any insertion order. |
| Utf8.TextReadBack | app/services/master_sync.py:175-176 | The size of a text is the number of bytes of an encoding that a strict decoder (section 3 of RFC 3629: shortest forms only) reads back as the text. |
| EventEnvelope.PartBodySize | app/services/master_sync.py:179-202 | The exact byte size of a frozen baseline part, for any id and sequence. |
| EventEnvelope.EstimateExact | app/services/master_sync.py:393-418 | The incremental estimate is the exact size of the part at the widest sequence number. |
| EventEnvelope.FrozenNeverLonger | app/services/master_sync.py:393-418 | The event really frozen is never longer than the estimate. |
| EventEnvelope.EnvelopeMonotone | app/services/master_sync.py:421-476 | The envelope never shrinks as the part number grows. |
| EventEnvelope.EmptyMarkerSize | app/services/master_sync.py:479-548 | The marker of an empty baseline is within Master's limit for all texts of ordinary length. |
| BaselinePacking.Partition | app/services/master_sync.py:421-476 | The loop with its running sizes computes the greedy packing defined by sizes of whole parts. |
| BaselinePacking.FitsExactly | app/services/master_sync.py:421-476 | A chunk fits if and only if it has at most 5000 items and its body, printed under the widest sequence number, at most 5 MiB. |
| BaselinePacking.PackIsPacking | app/services/master_sync.py:421-476 | Parts are non-empty, within both limits, and concatenate to the items in order. |
| BaselinePacking.StaysAhead | app/services/master_sync.py:421-476 | The first m parts hold at least as many items as the first m parts of any other packing. |
| BaselinePacking.PackIsOptimal | app/services/master_sync.py:421-476 | No order-preserving packing has fewer parts. |
| BaselinePacking.PackFailsExactly | app/services/master_sync.py:421-476 | The packer raises if and only if no packing exists. |
| BaselinePacking.PackedPartsAreAcceptable | app/services/master_sync.py:205-221 | No packed part is refused by the checks at enqueue time. |
| Fefo.OrderedIsSorted | app/services/expiry.py:286-303 | The candidate query lists its units once each, by expiry (none last), creation and id. |
| Fefo.SortedIsOrdered | app/services/expiry.py:286-303 | The order leaves no freedom: a sorted list of units is the query's answer on them. |
| Fefo.OrderedWithout | app/services/expiry.py:286-303 | Taking one unit moves nobody else in the queue. |
| Fefo.AllowedIsEarliest | app/services/expiry.py:306-322 | A scan passes the FEFO check if and only if its expiry equals the earliest on offer. |
| FefoDates.OrderedByDate | app/services/expiry.py:286-303 | In the candidate query earlier dates come first and units without a date last; equal dates go by creation, then by id. |
| FefoDates.PickByDates | app/services/expiry.py:325-355 | A bulk pick succeeds if and only if enough units are on offer, and none that it leaves behind has an earlier date, or a date when a picked one has none. |
| FefoDates.ScanByDates | app/services/expiry.py:306-322 | A unit is accepted by a scan if and only if it is on offer and no unit on offer has an earlier date, or a date when it has none. |
| FefoDates.CheckByDates | app/services/expiry.py:306-322 | The check alone, on any unit that is on offer: blocked if and only if such a unit exists. |
| DraftBatches.RemovalUndoesScan | app/services/inventory.py:279-367 | Removing the item of an accepted scan restores the tables exactly. |
| DraftBatches.ReturnUndoesScan | app/services/sale_returns.py:84-165 | In a sale, return scan and shelf scan undo a scan, except that the unit now lies on that shelf. |
| StockLedger.AdmissibleExactly | app/services/inventory.py:237-276 | A batch takes exactly the labels in use whose status its transaction may move (an audit: all that are assigned). |
| DraftBatches.PickTakesExactly | app/services/expiry.py:325-355 | The bulk pick succeeds if and only if enough units are on offer, then takes exactly that many, each before every unit left behind. |
| DraftBatches.ScansPickLikeFefo | app/services/expiry.py:277-355 | Any accepted single scans of one product take the expiry keys of one bulk pick of as many, position by position, and that pick would succeed. |
| DraftBatches.ApplyItemsEffect | app/services/inventory.py:370-443 | On distinct items in use the loop of conditional updates never fails; it shifts every item's status and logs one row an item, in order. |
| DraftBatches.SubmitExactly | app/services/inventory.py:370-443 | A batch of distinct items is submitted if and only if the named checks pass, with this whole effect. |
| SubmissionTable.SubmitByTable | app/services/inventory.py:370-443 | Against a table of kinds, statuses and log rows: a batch is submitted if and only if it is finished and the table lists a move for each of its units, which are then moved and logged in scan order as it says, and nothing else changes. |
| DraftTerms.ScanInTerms | app/services/inventory.py:279-334 | A scan is accepted if and only if no return waits, the unit is found, and either offer and date (sale, issue, purchase return) or the table and the open batches allow it; it appends that unit. |
| DraftTerms.RemoveInTerms | app/services/inventory.py:360-367 | A removal is accepted if and only if the item is there; the others keep their order. |
| DraftTerms.ReturnInTerms | app/services/sale_returns.py:84-128 | A return scan is accepted if and only if the open sale holds the unit, in use, and no other return waits. |
| DraftTerms.ReturnShelfInTerms | app/services/sale_returns.py:131-165 | Its shelf scan is accepted if and only if a return waits, and places what waits. |
| DraftTerms.ShelfInTerms | app/services/shelf_verification.py:75-122 | The other shelf scan is accepted if and only if the batch needs one and some item lacks it; it places exactly those items and verifies all. |
| StockRuns.RunKeepsValid | app/services/inventory.py:237-443 | In every run of stock calls, transfers included: open batches are disjoint and hold each unit once, every unit in one is admissible unless it has been relabelled, confirmed away or sent on a transfer since, histories link up, and labels stay well formed. |
| StockTheorems.SubmissionMeetsNoConflict | app/services/inventory.py:370-417 | In every run, a complete open batch (no pending return, every shelf verified, prices checked, not empty) is submitted, with its whole effect, if and only if each of its labels is in use and, unless it is an audit, none of its units is on its way elsewhere. |
| StockTheorems.OneOpenBatchPerSerial | app/services/inventory.py:296-311 | A unit is in at most one open batch, and there once. |
| StockTheorems.OutOfUseExactly | app/services/master_qr.py:196-223 | A label goes out of use in a step if and only if that step replaces it or confirms its transfer. |
| StockTheorems.SetsOutExactly | app/services/transfer.py:214-230 | A unit in use sets out in a step if and only if that step dispatches it. |
| StockTheorems.LeavesTransitExactly | app/services/transfer.py:645-660 | A unit on its way stops being so in a step if and only if that step confirms its transfer or receives it here. |
| StockTheorems.StaysOnTheWay | app/services/transfer.py:758-771 | In every run, a unit on its way is found so by the first confirmation or receipt that names it. |
| StockTheorems.HistoriesLinkUp | app/services/inventory.py:205-234 | In every run, transfers included, the log of a unit in use or away links end to end from its first status to its current one, and sales minus returns is one exactly when it is sold (less one if it started sold). |
| StockLedger.SaleBalance | app/services/inventory.py:388-441 | The sale and return balance of any linked log, unit by unit. |
| StockLedger.SubmitKeepsLedger | app/services/inventory.py:388-441 | Submission extends every item's history and leaves all others. |
| Relocation.ClaimedNeverMatch | app/services/relocation.py:267-278 | Units already claimed in a request can never match a later line of it. |
| Relocation.PickIsFirstLeft | app/services/relocation.py:270-278 | The limit and the screening of claimed ids never show: a line takes the first matching units that earlier lines left. |
| Relocation.ClaimsAll | app/services/relocation.py:301-320 | The conditional update finds every unit that was picked. |
| Relocation.MoveAllIsPlan | app/services/relocation.py:258-356 | The loop that queries after each line equals a plan read off the original stock. |
| RelocationEffects.RelocateExactly | app/services/relocation.py:243-398 | A relocation changes nothing, or carries out its plan: no unit twice, each put at the destination and logged. |
| RelocationEffects.PlanTakes | app/services/relocation.py:262-284 | Each line takes exactly its quantity, all of it matching. |
| RelocationEffects.RelocationConserves | app/services/relocation.py:258-356 | For every product, the destination gains exactly what was asked for, and every other place, each shelf and each warehouse name of unplaced stock, loses exactly what was taken from it. |
| RelocationEffects.KnownLocationNeverMixes | app/services/relocation.py:282-284 | From a known location the units of a line always share their source text. |
| RelocationEffects.MixesExactly | app/services/relocation.py:258-284 | For a well-formed line and an active destination: some stock that holds enough matching units makes the move refused if and only if the line asks for two units or more and names no location and no warehouse. |
| RelocationEffects.UnnamedLineRefused | app/services/relocation.py:220-284 | For every line that meets this condition, whatever its quantity, a stock of exactly that many matching units on which the move is refused. |
| RelocationEffects.OneLinePlan | app/services/relocation.py:262-284 | A well-formed line alone is carried out if and only if enough units match and the first of them read as one source. |
| RelocationTerms.MovesWhatIsAsked | app/services/relocation.py:215-356 | In terms of status, product, lot, place and date: each line takes as many different units as it asks for, none taken before and none that should give way to one left behind; they end at an active destination that is not their source, and are logged. |
| RelocationTerms.NamedLineMovesExactly | app/services/relocation.py:243-320 | A line that names a shelf or a warehouse is carried out by itself if and only if its quantity, label and destination are in order and as many units are there. |
| RelocationEffects.MixedLineRefused | app/services/relocation.py:262-284 | A line whose first matching units read as different sources is refused, available as they are. |
| RelocationEffects.BlankWarehousesMix | app/services/relocation.py:230-284 | A family of stocks on which an available quantity is refused, as blank and missing warehouses read differently. |
| RelocationEvents.ChunksPartition | app/services/relocation.py:366-375 | Chunks have 1 to 5000 items, are as few as possible, and concatenate to the list. |
| RelocationEvents.ChunkRefusedExactly | app/services/master_sync.py:205-221 | On an enrolled node, a chunk is refused if and only if its event id is taken or its body exceeds Master's byte limit; never for its item count. |
| RelocationEvents.RelocationIsReported | app/services/relocation.py:357-398 | A committed move queues exactly its chunks in order, which together are the moved units; a refused one queues and moves nothing. |
| Replacement.AllocateKeepsLabels | app/services/master_qr.py:125-170 | Allocation keeps ids, numbers, links and units well formed. |
| Replacement.AllocatedAt | app/services/master_qr.py:112-123 | Each allocated label becomes one unassigned row in use with its own number, lot, dates and warehouse. |
| Replacement.ReplaceKeepsLabels | app/services/master_qr.py:196-224 | So does replacement. |
| Replacement.ChainsAreAcyclic | app/services/master_qr.py:219-223 | Following links never returns to a label. |
| Replacement.ChainEndsInUse | app/services/master_qr.py:202-223 | Each chain of a unit once in use ends in one label, of the same product, which is in use unless its unit is away. |
| Replacement.ChainsNeverMeet | app/services/master_qr.py:219-223 | Different first labels end in different labels. |
| Replacement.OneUnitPerLabel | app/services/master_qr.py:219-223 | A label in use is the end of exactly one chain. |
| Replacement.ReplaceKeepsUnitCount | app/services/replacement.py:73-82 | A replacement leaves the number of units in use unchanged. |
| Replacement.ReplaceKeepsStockFigures | app/services/master_qr.py:202-223 | Of each product, lot, dates and place, as many units are in use after a replacement as before. |
| LabelTerms.ReplaceInTerms | app/services/master_qr.py:196-223 | A replacement is accepted if and only if the unit is in use with the expected status, one of four, and the new number is well formed and free; the two rows are then given field by field. |
| LabelTerms.AllocateInTerms | app/services/master_qr.py:87-170 | An allocation is accepted if and only if it has 1 to 500 different, well-formed, free numbers whose dates are in order; each becomes a row, given field by field. |
| StockTheorems.UnitsPersist | app/services/master_qr.py:173-224 | In every run, each first unit is still there under one label, of its product, in use or gone to another franchise. |
| StockTheorems.UnitsKeepLots | app/services/transfer.py:366-412 | In every run whose manifests agree with the rows they bring back, each unit keeps its lot and dates under whatever label it is found. |
| StockTheorems.ArrivalKeepsLotsExactly | app/services/transfer.py:415-540 | An accepted manifest keeps every lot and date if and only if it agrees with the rows of the units it names. |
| StockTheorems.LabelsIdentifyUnits | app/services/master_qr.py:173-224 | In every run, a label in use belongs to exactly one unit. |
| StockTheorems.UnitsAreConserved | app/services/master_qr.py:125-224 | In every run, the units in use are the first ones, plus those allocated and those announced by manifests, less those confirmed received elsewhere. |
| Transfers.ClaimEachExactly | app/services/transfer.py:208-230 | The claim loop of a dispatch or receipt succeeds if and only if it names different units in use with the status it starts from, and moves just those. |
| TransferTerms.DispatchInTerms | app/services/transfer.py:193-262 | A dispatch is accepted if and only if it names 1 to 5000 different units in stock and in use; exactly they are on their way then, and logged. |
| TransferTerms.ReceiptInTerms | app/services/transfer.py:612-688 | A receipt is accepted if and only if it names different units on their way; exactly they are in stock then, and logged. |
| TransferTerms.ConfirmationInTerms | app/services/transfer.py:725-771 | A confirmation of units on their way takes exactly them out of use. |
| TransferTerms.ManifestInTerms | app/services/transfer.py:366-540 | A manifest is accepted if and only if it has lines, under different numbers, each new here or of a unit of the same product that has left; each unit is then there, field by field, and no other row has changed. |
| QrCommands.CommandsKeepLabels | app/services/master_qr.py:62-237 | Any sequence of applied commands, of whatever types, keeps batches, histories and label chains well formed. |
| CommandTerms.OnlyAskedIsApplied | app/services/master_qr.py:173-195 | A replacement is applied only if its payload, key by key, asks for one on this node. |
| CommandTerms.AskedIsApplied | app/services/master_qr.py:173-237 | One that is asked for is applied if and only if the unit may be replaced and the completion event is accepted; then both happen. |
| CommandTerms.OnlyAllocationsAreApplied | app/services/master_qr.py:62-123 | An allocation is applied only if its payload and each of its serials say one, key by key. |
| CommandTerms.AllocationIsApplied | app/services/master_qr.py:62-170 | One that is said is applied if and only if its product is acceptable and its labels may be allocated, and adds them. |
| CommandTerms.OtherIsApplied | app/services/transfer.py:415-540 | Any other command is applied if and only if it asks for arrivals and confirmations that are accepted in turn. |
| BatchEvents.SubmissionIsReported | app/services/master_sync.py:324-372 | A committed submission queues one event, whose items are the snapshots of exactly the batch's units, in scan order and with their new status; its stock effect is that of `Submit`. |
| Shop.JointRunsProject | app/routers/batches.py:1163-1197 | Every joint run of stock, outbox and commands is a run of each machine, so all theorems above hold of it. |
| Shop.RunKeepsCoupled | app/routers/batches.py:1163-1197 | Stock tables and outbox always agree on which batches are drafts. |
| ShopTheorems.MovedExactlyWhenReported | app/routers/batches.py:1163-1197 | In every joint run, a submitted batch has exactly one event in the outbox and a draft has none. |
| ShopTheorems.SubmissionOfRun | app/services/master_sync.py:324-372 | In every joint run, a submitted batch was submitted at some step, and the event frozen then, with the snapshots of the units in it at that moment, is in the outbox unchanged. |
| ShopTheorems.JointSubmissionMeetsNoConflict | app/routers/batches.py:1163-1197 | Whatever happens on the network and in the inbox, an open batch is submitted if and only if it is complete and its units are all present. |
| ShopTheorems.BaselineOfRun | app/services/master_sync.py:479-548 | In every joint run with a non-empty outbox, the first events are the baseline of one enrolling step: the parts of a packing of the snapshots of each unit in use that was GENERATED or IN_STOCK at that moment, each once and no other (or the empty marker), under the code in use; no later event is a baseline. |
| ShopTheorems.BaselineListsUnits | app/services/master_sync.py:493-507 | What a baseline lists is one snapshot of each such unit, in order of id, and of no other. |
| ShopTheorems.PolledRunsAreJointRuns | app/services/master_sync.py:1204-1289 | Every run of local calls and polls, with replays, losses and refusals, leaves the node where the joint run of its calls and of the distinct commands applied leaves it. |
| ShopTheorems.EachReplacementReportedOnce | app/services/master_qr.py:226-237 | Under any replay, loss or refusal, and whatever the node does between polls, the replacement events name, in order, exactly the replacement commands applied. |
| StockRoom.Tables.CreateDraft | app/services/inventory.py:118-184 | A new batch is an empty draft under an unused id. |
| StockRoom.Tables.AddSerialToBatch | app/services/inventory.py:279-334 | The scan on mutable tables computes the modelled scan. |
| StockRoom.Tables.AddFefoSerialsToBatch | app/services/expiry.py:325-355 | The insertion loop adds all candidates or nothing. |
| StockRoom.Tables.RemoveBatchItem | app/services/inventory.py:360-367 | Removal deletes that one item and no other. |
| StockRoom.Tables.ScanSaleReturnProduct | app/services/sale_returns.py:84-128 | One unit of the batch leaves its items and alone waits for a shelf. |
| StockRoom.Tables.VerifySaleReturnOnShelf | app/services/sale_returns.py:131-165 | The shelf scan places every pending unit and clears them. |
| StockRoom.Tables.VerifyPendingItemsOnShelf | app/services/shelf_verification.py:75-122 | The shelf scan of other batches finds the unverified items, places each and marks it verified. |
| StockRoom.Tables.ApplyBatchStatuses | app/services/inventory.py:370-443 | The loop of claims and log rows, with rollback, computes the modelled loop. |
| StockRoom.Tables.SubmitBatch | app/services/inventory.py:370-443 | The checks and the loop compute the modelled submission. |
| StockRoom.Tables.SubmitOnLite | app/routers/batches.py:1163-1197 | Stock and the event built from the batch's units change together, or both are rolled back. |
| StockRoom.Tables.DispatchOutboundTransfer | app/services/transfer.py:193-262 | Units, log rows and event of a dispatch, or nothing. |
| StockRoom.Tables.FinalizeInboundReceipt | app/services/transfer.py:612-688 | Units, log rows and event of a receipt, or nothing. |
| StockRoom.Tables.DeactivateReceived | app/services/transfer.py:758-771 | The loop takes exactly the received units out of use, whatever their rows say. |
| StockRoom.Tables.ApplyTransferAvailable | app/services/transfer.py:463-540 | The manifest loop adds or reactivates every unit, or changes nothing. |
| StockRoom.Tables.MoveUnits | app/services/relocation.py:323-355 | The row loop of one line places and logs each unit. |
| StockRoom.Tables.RelocateStock | app/services/relocation.py:243-398 | Nested loops with rollback compute the modelled move and its report. |
| StockRoom.QueueChunks | app/services/relocation.py:370-385 | The chunk loop queues every chunk or restores the outbox. |
| StockRoom.CheckLabels | app/services/master_qr.py:90-123 | The parsing loop accepts exactly well-formed, unrepeated serials. |
| StockRoom.Tables.ApplyQrAllocated | app/services/master_qr.py:87-170 | All labels of a command are added, or none. |
| StockRoom.Tables.ApplyQrReplace | app/services/master_qr.py:182-224 | The stock side of a replacement, in place. |
| StockRoom.ApplyQrReplaceCommand | app/services/master_qr.py:173-237 | Replacement and completion event, with the dirty state a refused event leaves. |
| ExpiryProjection.Project | app/services/stock_movement.py:223-245 | The loop returns the peak shortfall, and names the risk exactly. |
| ExpiryProjection.NoPlanDoesBetter | app/services/stock_movement.py:232-238 | No sales plan within the rate, even if held to it only at expiry dates, leaves fewer units unsold. |
| ExpiryProjection.EarliestFirstIsPlan | app/services/stock_movement.py:232-238 | Selling the earliest expiry first stays within the daily rate. |
| ExpiryProjection.EarliestFirstIsOptimal | app/services/stock_movement.py:232-238 | It leaves exactly the projected number unsold. |
| ExpiryProjection.EarliestFirstInOrder | app/services/stock_movement.py:232-238 | It never sells a later lot while an earlier one can still be sold. |
| ExpiryProjection.CapacityIs | app/services/stock_movement.py:237-237 | The projected sales are the greatest number within the rate: n is at most that if and only if n * period is at most sold * days. |
| ExpiryProjection.ProjectionExact | app/services/stock_movement.py:223-238 | The projected number is the least excess, over all expiry dates, of what is due by then over what can be sold by then at the exact rate. |
| TallySync.RunKeepsValid | app/services/tally.py:399-513 | The invariant of a batch row, its posts and Tally's books, in every run. |
| TallySync.SamePayloadBetweenRejections | app/services/tally.py:399-513 | All posts between two confirmed rejections carry the same XML, across crashes, setting changes and re-queues. |
| TallySync.OneVoucher | app/services/tally.py:145-149 | Every post uses one remote id, so Tally holds at most one voucher for the batch, and a SYNCED batch's voucher is the last one posted. |
| TallySync.SyncedIsFinal | app/services/sync_worker.py:220-292 | A SYNCED batch is never posted or changed again. |
| TallyProgress.PassPostsExactly | app/services/sync_worker.py:263-292 | With Tally accepting, a pass of the worker books the batch's voucher if and only if the batch is submitted, or waiting with its time come, or claimed more than ten minutes ago; otherwise it changes nothing. |
| TallyProgress.PassNeedsVoucher | app/services/sync_worker.py:263-292 | A pass changes nothing of a batch that is not due, whose type is switched off or has no voucher. |
| TallyProgress.CallPostsExactly | app/services/tally.py:389-513 | A direct call books it unless the batch is a draft, done, or claimed within ten minutes. |
| TallyProgress.RejectedWaits | app/services/sync_worker.py:220-292 | No pass touches a rejected batch; queueing it makes it due at once, under the same remote id, with a voucher made anew. |
| TallyProgress.OthersAreNotPosted | app/services/tally.py:399-430 | Audits and label assignments are closed without a post; other types without a voucher wait. |
| TallyProgress.UnknownHeals | app/services/tally.py:399-513 | In every run, a post whose outcome is unknown heals: the next pass after lease and retry time books the very same voucher. |
| TallySync.TallyBatch.SyncBatch | app/services/tally.py:399-513 | The method on the mutable row computes the modelled attempt. |
| TallySync.TallyBatch.ClaimBatch | app/services/tally.py:412-489 | Building, freezing and claiming the payload, with what a crash before the commit undoes. |
| TallySync.TallyBatch.PostToTally | app/services/tally.py:491-513 | What each outcome of the exchange stores. |
| TallySync.TallyBatch.QueueForSync | app/services/sync_worker.py:220-260 | Re-queueing unfreezes the payload exactly after a rejection. |
| Voucher.CalculateVoucherSummary | app/services/voucher.py:60-155 | The accumulating loop equals the totals of the lines. |
| Voucher.SummaryConsistent | app/services/voucher.py:60-155 | Every summary satisfies what double entry needs: totals are line sums and round-off closes the gap. |
| VoucherAmounts.DiscountIsNearest | app/services/voucher.py:70-80 | On the sales side the discount is the paise nearest to its percentage of the gross amount; a purchase has none. |
| VoucherAmounts.TaxableIsNearest | app/services/voucher.py:18-21 | The taxable value of a sales line is the paise nearest to price * 100 / (100 + rate), at the rate that its branch selects; a purchase's is its price. |
| VoucherAmounts.TaxesAreNearest | app/services/voucher.py:88-116 | Between states the tax is the nearest paise of IGST; otherwise two equal taxes at the nearest half of the rate. |
| VoucherAmounts.PriceIsSplit | app/services/voucher.py:88-116 | Taxable value and taxes of a sales line add up to its price within one paise between states, and within two otherwise at rates that halve evenly. |
| VoucherAmounts.FinalIsNearestRupee | app/services/voucher.py:142-146 | The final value is the rupee nearest to the columns' sum, and the round-off is the difference. |
| Voucher.BuildVoucher | app/services/tally.py:222-335 | The entry-building loops produce the modelled entries, or fail on a missing ledger or a sales rate outside 0 to 100 per cent. |
| VoucherAmounts.BuiltExactly | app/services/tally.py:170-335 | There is a voucher if and only if the party is named and every ledger that would receive something is set: by rate on the sales side, with an IGST ledger where a rate's IGST is positive. |
| VoucherAmounts.LedgerReceives | app/services/tally.py:228-335 | Without negative tax totals, each ledger receives exactly what the lines owe it by their accounts, credits on a sale and debits otherwise; the party is on the other side and the round-off in its own ledger. |
| Voucher.GroupingConservesTax | app/services/tally.py:290-299 | Grouping by rate neither loses nor invents tax. |
| Voucher.GroupsMatchLines | app/services/tally.py:290-299 | There is one group a rate, with exactly the taxes of its lines. |
| Voucher.VoucherBalance | app/services/tally.py:228-335 | Entries are out of balance by exactly the negative tax totals not posted. |
| Voucher.BalancedExactly | app/services/tally.py:228-335 | A voucher balances if and only if no tax total is negative. |
| Voucher.OrdinaryVouchersBalance | app/services/tally.py:228-335 | Ordinary prices and rates always balance. |
| IndianWords.UnderThousand | app/services/preinvoice.py:46-57 | The loop says the words of its number. |
| IndianWords.IntegerInIndianWords | app/services/preinvoice.py:60-78 | The recursive printer terminates and its words are read back as the number, whatever its size or sign. |
| IndianWords.NumberHeard | app/services/preinvoice.py:60-78 | An independent listener hears nested crores correctly. |
| IndianWords.IntegerReadBack | app/services/preinvoice.py:60-78 | Words to number is the inverse of number to words. |
| IndianWords.ToPaiseNearest | app/services/preinvoice.py:81-90 | Amounts are rounded to the nearest paise, halves away from zero. |
| IndianWords.AmountReadBack | app/services/preinvoice.py:81-90 | The words of an amount are read back as its paise. |
| IndianWords.AmountInWordsInjective | app/services/preinvoice.py:81-90 | Two amounts are written alike if and only if they are the same number of paise. |
| EnvText.TwoPassUnescapes | deploy.py:67-92 | Two replacements undo the escaping. |
| EnvText.OnePassUnescapes | app/config.py:75-103 | One left-to-right pass undoes it too. |
| EnvFile.AssignmentReadBack | deploy.py:67-92 | A written line is read back by both readers. |
| EnvFile.WriterKeyIsReaderKey | deploy.py:95-113 | A line the writer recognises has that key for both readers. |
| EnvFile.ReadEnv | app/config.py:75-103 | The reader's loop computes the last assignment of each key, or of each allowed key. |
| EnvFile.WriteEnv | deploy.py:95-113 | The writer's loop rewrites the first line of each pending key and appends the rest. |
| EnvFile.FileTextReads | deploy.py:113-113 | Trimming and joining the lines changes nothing a reader sees. |
| EnvFile.WrittenReads | deploy.py:95-113 | After a rewrite each reader sees the old values overridden by the updates, except shadowed keys. |
| EnvFile.EnvRoundTrip | deploy.py:67-113 | The same through the whole text of the file. |
| EnvFile.UpdateReadBack | deploy.py:67-113 | A key the old file defines at most once is read back as written. |
| EnvFile.ReadValuesAreOneLine | app/config.py:75-103 | Values without line breaks are the only ones that can be read, so the condition is needed. |
| Witnesses.UnbalancedPurchase | app/services/tally.py:300-320 | Every purchase of one unit at 100.00 and a rate of -5 per cent, with its ledger set, is posted 5.00 out of balance. |
| Witnesses.DashCodeConnectsOnce | app/routers/lite_sync.py:103-121 | From any fresh start, a node connects as `A-`, its empty baseline is queued, and every later connection under `A-` is refused. |
| Witnesses.ShadowedUpdateIsLost | deploy.py:95-113 | For every key and values, the update of a file that assigns the key twice is lost on both readers. |
| Witnesses.RelabelledUnitBlocksBatch | app/services/inventory.py:370-387 | A run that scans, shelves and then relabels a unit leaves a complete purchase that is refused. |
| Witnesses.DispatchedUnitBlocksBatch | app/services/transfer.py:193-230 | A run that scans a unit into a sale and then dispatches it leaves a complete sale that is refused. |
| Witnesses.ManifestOverwritesLot | app/services/transfer.py:366-412 | A run that dispatches a unit, confirms it and takes it back on any manifest line that names a lot or date leaves the row with the manifest's lot and dates. |
| Witnesses.PendingReturnIsPicked | app/routers/batches.py:1037-1051 | A run that scans a unit into a sale and back leaves a sale in which every scan is refused and a bulk pick takes that unit, its return still pending. |
| Witnesses.UnreadableReplyIsRebuilt | app/services/tally.py:399-513 | From any new batch, a voucher that Tally took but answered unreadably is followed by a post with other content. |

## Left out

- Overlapping push runs: the claim in `push_pending_events` is no compare-and-swap, so one pusher at a time is assumed.
- HTTP, TLS, redirects, decoding of replies and redaction of error texts: a request is answered, lost, garbled, refused or crashed.
- SHA-256 is taken to be injective and event ids are inputs; a repeated id is refused, as the unique column does.
- Sequence numbers after a rolled-back insert: SQLite gives the number out again, and the model does too.
- One `now` for each turn of a loop; the source reads the clock several times in a turn.
- Transfer rows, reservations and receipt scans: which units a transfer, a receipt or a confirmation names is an input; the payloads of transfer events are opaque, and which units a transfer command carries is a parameter of `QrCommands`.
- Transfers.Confirm: confirms units that are in use and on their way, where the source re-reads only the transfer's own rows; `StaysOnTheWay` shows that the first confirmation of a dispatched unit finds it so.
- Product updates, and commands of further types: parameters of `QrCommands` that change no unit.
- LiteNode.Node.ConnectToMaster: does not model the refusals for the saved node id, the origin and the credentials, nor the push and poll that follow a connection, which are further steps of a run.
- LiteNode.Node.SubmitDraft: takes its request as given; its content is the subject of `SubmissionIsReported` and `SubmitOnLite`.
- Voucher.BuildVoucher: does not model the other fields of the Tally XML (dates, party details, inventory quantities), because only the signed entries can be out of balance.
- The search for the product an allocation names, and its refusals: a parameter of `QrCommands`.
- ISO dates and the snapshot of a unit for Master (`network_event_item`): parameters.
- Checks of prices on submission, and of audit assignments and shelf intervals on a scan: a flag of the step.
- Scan logs, users, permissions, rates stored on items, and `warehouse_level`: no modelled decision reads them.
- Case folding of characters beyond ASCII, in serial numbers, franchise codes and warehouse names.
- SQL `LIKE` with `%`: no franchise code contains it.
- Concurrent transactions inside one service call: each committed call is one step, so the conditional updates are proved never to refuse rather than exercised.
- `generate_serials` and the local label replacement of Master installations: Lite refuses them, and only `replacement_status_for` and the copied fields are shared.
- Sequences of replaced labels across a database reset or restore.
- The reading of a database error as a refusal (unique constraints on locations, batch numbers and serials beyond those named).
- The rate in the expiry projection is the exact ratio sold / days; the source's float may differ in the last digit.
- Decimal's 28-digit context: amounts are exact.
- Gateway checks and the data-job queue that share the retry worker.
- URL, credential and origin checks of the connection form.
- Sizes count UTF-8 bytes of the text; lone surrogates, which cannot be encoded, do not occur.
