/**
 Sending one batch to Tally (app/services/tally.py, app/services/sync_worker.py): the payload is
 frozen while the outcome of a post is unknown, and rebuilt only after a confirmed rejection.
 */
module TallySync {
  import opened Options

  const LEASE_MINUTES := 10

  datatype Status = Draft | Submitted | Syncing | Synced | PendingSync | Failed | Closed

  /** Audit and QR-assignment batches are only closed; some types have no Tally voucher. */
  datatype Kind = Posted | ClosedOnly | Unsupported

  /** `uuid5` of the company name and the batch number, taken to be injective. */
  datatype RemoteId = Uuid5(company: string, batchNumber: string)

  /** A voucher: its REMOTEID, and everything else the generator wrote. */
  datatype Xml = Xml(remoteId: RemoteId, content: string)

  datatype Row = Row(
    kind: Kind,
    batchNumber: string,
    status: Status,
    remoteId: Option<RemoteId>,
    requestXml: Option<Xml>,
    startedAt: Option<int>,
    lastRetryAt: Option<int>,
    retryCount: nat)

  /** How a post ended for Setuora: an accepted voucher, no answer, or a confirmed rejection. */
  datatype Verdict = Accepted | Uncertain | Rejected

  datatype Post = Post(xml: Xml, verdict: Verdict)

  /** The row, every post made for it, and the vouchers in Tally's books. */
  datatype Batch = Batch(row: Row, posts: seq<Post>, books: map<RemoteId, Xml>)

  /** `imported` says whether Tally took the voucher into its books. */
  datatype Outcome =
    | Imported                             // CREATED or ALTERED, and the reply arrives
    | NoAnswer(posted: bool, imported: bool) // not configured, refused connection, timeout, reset, ...
    | Refused(imported: bool)              // line errors, nothing imported, or an unreadable reply
    | CrashBeforeClaim
    | CrashAfterClaim(posted: bool, imported: bool)

  /**
   What a synchronization finds: the clock in minutes, the current company, what the current
   generator and settings make of the batch (`None` if they cannot), whether its type is enabled.
   */
  datatype Setting = Setting(now: int, company: string, content: Option<string>, enabled: bool, outcome: Outcome)

  function RemoteIdOf(row: Row, company: string): RemoteId {
    match row.remoteId
    case Some(id) => id
    case None => Uuid5(company, row.batchNumber)
  }

  function Record(b: Batch, xml: Xml, verdict: Verdict, imported: bool): Batch {
    b.(posts := b.posts + [Post(xml, verdict)], books := if imported then b.books[xml.remoteId := xml] else b.books)
  }

  /** After the claim has been committed: the post, and what it leaves in the row. */
  function PostXml(b: Batch, xml: Xml, s: Setting): Batch {
    match s.outcome
    case Imported => Record(b.(row := b.row.(status := Synced, startedAt := None)), xml, Accepted, true)
    case NoAnswer(posted, imported) =>
      var pending := b.(row := b.row.(status := PendingSync, lastRetryAt := Some(s.now), startedAt := None));
      if posted then Record(pending, xml, Uncertain, imported) else pending
    case Refused(imported) =>
      Record(b.(row := b.row.(status := Failed, lastRetryAt := Some(s.now), startedAt := None)), xml, Rejected,
          imported)
    case CrashBeforeClaim => b
    case CrashAfterClaim(posted, imported) => if posted then Record(b, xml, Uncertain, imported) else b
  }

  predicate LeaseHeld(row: Row, now: int) {
    row.status == Syncing && row.startedAt.Some? && row.startedAt.value > now - LEASE_MINUTES
  }

  predicate IsRetry(row: Row) {
    row.status == PendingSync || row.status == Failed || row.status == Syncing
  }

  /** The payload of this attempt: rebuilt after a rejection, otherwise the frozen one if any. */
  function Payload(row: Row, remoteId: RemoteId, content: Option<string>): Option<Xml> {
    if row.status != Failed && row.requestXml.Some? then row.requestXml
    else
      var text :- content;
      Some(Xml(remoteId, text))
  }

  /** The row after this attempt has been counted. */
  function Tried(row: Row, now: int): Row {
    if IsRetry(row) then row.(retryCount := row.retryCount + 1, lastRetryAt := Some(now)) else row
  }

  /** A voucher batch up to the claim; the second result is the payload to post, if it is claimed. */
  function Claim(row: Row, s: Setting): (Row, Option<Xml>) {
    var id := RemoteIdOf(row, s.company);
    var named := Tried(row, s.now).(remoteId := Some(id));
    match Payload(row, id, s.content)
    case None => (named.(status := PendingSync, lastRetryAt := Some(s.now)), None)
    case Some(xml) =>
      if !s.enabled then
        (named.(status := PendingSync, requestXml := Some(xml), lastRetryAt := Some(s.now)), None)
      else if s.outcome == CrashBeforeClaim then (row, None)
      else (named.(status := Syncing, requestXml := Some(xml), startedAt := Some(s.now)), Some(xml))
  }

  /** `sync_batch`. */
  function Sync(b: Batch, s: Setting): Batch {
    if b.row.status == Synced || b.row.status == Closed || LeaseHeld(b.row, s.now) then b
    else
      match b.row.kind
      case ClosedOnly => b.(row := Tried(b.row, s.now).(status := Closed))
      case Unsupported => b.(row := Tried(b.row, s.now).(status := PendingSync))
      case Posted =>
        var (row, payload) := Claim(b.row, s);
        match payload
        case None => b.(row := row)
        case Some(xml) => PostXml(b.(row := row), xml, s)
  }

  /** Whether `retry_pending_batches` picks the batch. */
  predicate Due(row: Row, now: int, retryDueBefore: int) {
    || row.status == Submitted
    || (row.status == PendingSync && (row.lastRetryAt.None? || row.lastRetryAt.value <= retryDueBefore))
    || (row.status == Syncing && row.startedAt.Some? && row.startedAt.value < now - LEASE_MINUTES)
  }

  /** `queue_batch_for_sync`: an explicit retry. */
  function Queue(row: Row): Row {
    if row.status == Failed then
      row.(status := PendingSync, requestXml := None, startedAt := None, lastRetryAt := None)
    else if row.status == PendingSync && row.lastRetryAt.Some? then row.(lastRetryAt := None)
    else row
  }

  // ----- The batch as a mutable row -----

  class TallyBatch {
    const kind: Kind
    const batchNumber: string
    var status: Status
    var remoteId: Option<RemoteId>
    var requestXml: Option<Xml>
    var startedAt: Option<int>
    var lastRetryAt: Option<int>
    var retryCount: nat
    ghost var posts: seq<Post>
    ghost var books: map<RemoteId, Xml>

    function RowState(): Row
      reads this
    {
      Row(kind, batchNumber, status, remoteId, requestXml, startedAt, lastRetryAt, retryCount)
    }

    ghost function State(): Batch
      reads this
    {
      Batch(RowState(), posts, books)
    }

    constructor (kind: Kind, batchNumber: string)
      ensures State() == Batch(Row(kind, batchNumber, Draft, None, None, None, None, 0), [], map[])
    {
      this.kind, this.batchNumber, status := kind, batchNumber, Draft;
      remoteId, requestXml, startedAt, lastRetryAt, retryCount := None, None, None, None, 0;
      posts, books := [], map[];
    }

    /** The HTTP exchange with Tally. */
    ghost method Exchange(xml: Xml, verdict: Verdict, imported: bool)
      modifies this`posts, this`books
      ensures State() == Record(old(State()), xml, verdict, imported)
    {
      posts := posts + [Post(xml, verdict)];
      books := if imported then books[xml.remoteId := xml] else books;
    }

    method SyncBatch(s: Setting)
      modifies this
      ensures State() == Sync(old(State()), s)
    {
      hide PostXml, Claim;
      if status == Synced || status == Closed {
        return;
      }
      if status == Syncing && startedAt.Some? && startedAt.value > s.now - LEASE_MINUTES {
        return;
      }
      if kind == Posted {
        var payload := ClaimBatch(s);
        if payload.Some? {
          PostToTally(payload.value, s);
        }
      } else {
        if IsRetry(RowState()) {
          retryCount, lastRetryAt := retryCount + 1, Some(s.now);
        }
        status := if kind == ClosedOnly then Closed else PendingSync;
      }
    }

    method ClaimBatch(s: Setting) returns (payload: Option<Xml>)
      modifies this`status, this`remoteId, this`requestXml, this`startedAt, this`lastRetryAt, this`retryCount
      ensures (RowState(), payload) == Claim(old(RowState()), s)
    {
      var entry := RowState();
      if IsRetry(RowState()) {
        retryCount, lastRetryAt := retryCount + 1, Some(s.now);
      }
      remoteId := Some(RemoteIdOf(entry, s.company));
      payload := Payload(entry, remoteId.value, s.content);
      if payload.None? {
        status, lastRetryAt := PendingSync, Some(s.now);
      } else if !s.enabled {
        status, requestXml, lastRetryAt, payload := PendingSync, payload, Some(s.now), None;
      } else if s.outcome == CrashBeforeClaim {
        // Nothing was committed: the session's changes are lost with the process.
        retryCount, lastRetryAt, remoteId, payload := entry.retryCount, entry.lastRetryAt, entry.remoteId, None;
      } else {
        status, requestXml, startedAt := Syncing, payload, Some(s.now);
      }
    }

    /** The claim is committed; post the payload and store what came of it. */
    method PostToTally(xml: Xml, s: Setting)
      modifies this
      ensures State() == PostXml(old(State()), xml, s)
    {
      match s.outcome {
        case Imported =>
          Exchange(xml, Accepted, true);
          status, startedAt := Synced, None;
        case NoAnswer(posted, imported) =>
          if posted {
            Exchange(xml, Uncertain, imported);
          }
          status, lastRetryAt, startedAt := PendingSync, Some(s.now), None;
        case Refused(imported) =>
          Exchange(xml, Rejected, imported);
          status, lastRetryAt, startedAt := Failed, Some(s.now), None;
        case CrashBeforeClaim =>
        case CrashAfterClaim(posted, imported) =>
          if posted {
            Exchange(xml, Uncertain, imported);
          }
      }
    }

    method QueueForSync() returns (queued: bool)
      modifies this
      ensures queued <==> old(status) in {Submitted, PendingSync, Failed}
      ensures State() == old(State()).(row := Queue(old(RowState())))
    {
      if status != Submitted && status != PendingSync && status != Failed {
        return false;
      }
      if status == Failed {
        status, requestXml, startedAt, lastRetryAt := PendingSync, None, None, None;
      } else if status == PendingSync && lastRetryAt.Some? {
        lastRetryAt := None;
      }
      return true;
    }
  }

  // ----- Every run -----

  datatype Step =
    | Submitting
    | Queueing
    | Working(setting: Setting, retryDueBefore: int) // the retry worker's pass
    | Forcing(setting: Setting)                      // a direct call of `sync_batch`

  function Apply(b: Batch, step: Step): Batch {
    match step
    case Submitting => if b.row.status == Draft then b.(row := b.row.(status := Submitted)) else b
    case Queueing => b.(row := Queue(b.row))
    case Working(s, due) =>
      if b.row.kind == Posted && s.enabled && Due(b.row, s.now, due) then Sync(b, s) else b
    case Forcing(s) => if b.row.status == Draft then b else Sync(b, s)
  }

  function Run(b: Batch, steps: seq<Step>): Batch {
    if steps == [] then b else Apply(Run(b, steps[..|steps| - 1]), steps[|steps| - 1])
  }

  predicate New(b: Batch) {
    && b.row.status == Draft && b.row.remoteId == None && b.row.requestXml == None
    && b.posts == [] && b.books == map[]
  }

  ghost predicate LastWas(b: Batch, verdict: Verdict) {
    b.posts != [] && b.posts[|b.posts| - 1].verdict == verdict
  }

  /** One remote id for the payload, for every post, and in Tally's books. */
  ghost predicate OneRemoteId(b: Batch) {
    && (b.row.requestXml.Some? || b.posts != [] ==> b.row.remoteId.Some?)
    && (b.row.requestXml.Some? ==> b.row.requestXml.value.remoteId == b.row.remoteId.value)
    && (forall p <- b.posts :: p.xml.remoteId == b.row.remoteId.value)
    && (forall id <- b.books :: b.posts != [] && id == b.row.remoteId.value && b.books[id].remoteId == id)
  }

  /** Until a post is answered, its payload is the one to be posted next. */
  ghost predicate PayloadKept(b: Batch) {
    && (forall i :: 0 <= i < |b.posts| - 1 ==> b.posts[i].verdict != Accepted)
    && (forall i :: 0 <= i < |b.posts| - 1 && b.posts[i].verdict == Uncertain ==> b.posts[i + 1].xml == b.posts[i].xml)
    && (LastWas(b, Uncertain) ==>
          (b.row.status == Syncing || b.row.status == PendingSync)
          && b.row.requestXml == Some(b.posts[|b.posts| - 1].xml))
    && (LastWas(b, Accepted) <==> b.row.status == Synced)
    && (LastWas(b, Accepted) ==>
          var xml := b.posts[|b.posts| - 1].xml; xml.remoteId in b.books && b.books[xml.remoteId] == xml)
    && (b.row.status == Failed ==> LastWas(b, Rejected))
    && (b.row.status == Draft || b.row.status == Submitted || b.row.status == Closed ==> b.posts == [])
    && (b.row.kind != Posted ==> b.posts == [])
  }

  ghost predicate Valid(b: Batch) {
    OneRemoteId(b) && PayloadKept(b)
  }

  /** The claimed payload is stored, and repeats the last one if its outcome is unknown. */
  ghost predicate Recordable(b: Batch, xml: Xml) {
    && OneRemoteId(b) && b.row.requestXml == Some(xml) && b.row.kind == Posted
    && (forall i :: 0 <= i < |b.posts| ==> b.posts[i].verdict != Accepted)
    && (forall i :: 0 <= i < |b.posts| - 1 && b.posts[i].verdict == Uncertain ==> b.posts[i + 1].xml == b.posts[i].xml)
    && (LastWas(b, Uncertain) ==> b.posts[|b.posts| - 1].xml == xml)
  }

  lemma RecordKeepsValid(b: Batch, xml: Xml, verdict: Verdict, imported: bool)
    requires Recordable(b, xml)
    requires match verdict
      case Accepted => imported && b.row.status == Synced
      case Uncertain => b.row.status == Syncing || b.row.status == PendingSync
      case Rejected => b.row.status == Failed
    ensures Valid(Record(b, xml, verdict, imported))
  {
    hide Valid;
    RecordKeepsPayload(b, xml, verdict, imported);
    RecordKeepsRemoteId(b, xml, verdict, imported);
    assert Valid(Record(b, xml, verdict, imported)) by { BothMakeValid(Record(b, xml, verdict, imported)); }
  }

  lemma BothMakeValid(b: Batch)
    requires OneRemoteId(b) && PayloadKept(b)
    ensures Valid(b)
  {
    hide OneRemoteId, PayloadKept;
  }

  lemma RecordKeepsPayload(b: Batch, xml: Xml, verdict: Verdict, imported: bool)
    requires Recordable(b, xml)
    requires match verdict
      case Accepted => imported && b.row.status == Synced
      case Uncertain => b.row.status == Syncing || b.row.status == PendingSync
      case Rejected => b.row.status == Failed
    ensures PayloadKept(Record(b, xml, verdict, imported))
  {
    hide OneRemoteId;
    var after := Record(b, xml, verdict, imported);
    assert forall i :: 0 <= i < |b.posts| ==> after.posts[i] == b.posts[i];
  }

  lemma RecordKeepsRemoteId(b: Batch, xml: Xml, verdict: Verdict, imported: bool)
    requires Recordable(b, xml)
    ensures OneRemoteId(Record(b, xml, verdict, imported))
  {
    hide LastWas;
  }

  lemma StatusDoesNotMatter(b: Batch, row: Row, xml: Xml)
    requires Recordable(b, xml)
    requires row == b.row.(status := row.status, startedAt := row.startedAt, lastRetryAt := row.lastRetryAt)
    ensures Recordable(b.(row := row), xml)
  {
  }

  lemma UnpostedIsValid(b: Batch, xml: Xml)
    requires Recordable(b, xml) && (b.row.status == Syncing || b.row.status == PendingSync)
    ensures Valid(b)
  {
  }

  /** An attempt that is claimed and posted: the payload is the frozen one, unless it was rejected. */
  lemma PostKeepsValid(b: Batch, xml: Xml, s: Setting)
    requires Recordable(b, xml) && b.row.status == Syncing && s.outcome != CrashBeforeClaim
    ensures Valid(PostXml(b, xml, s))
  {
    hide Record, Recordable, Valid;
    match s.outcome
    case Imported =>
      var row := b.row.(status := Synced, startedAt := None);
      StatusDoesNotMatter(b, row, xml);
      RecordKeepsValid(b.(row := row), xml, Accepted, true);
    case NoAnswer(posted, imported) =>
      var row := b.row.(status := PendingSync, lastRetryAt := Some(s.now), startedAt := None);
      StatusDoesNotMatter(b, row, xml);
      UnpostedIsValid(b.(row := row), xml);
      RecordKeepsValid(b.(row := row), xml, Uncertain, imported);
    case Refused(imported) =>
      var row := b.row.(status := Failed, lastRetryAt := Some(s.now), startedAt := None);
      StatusDoesNotMatter(b, row, xml);
      RecordKeepsValid(b.(row := row), xml, Rejected, imported);
    case CrashAfterClaim(posted, imported) =>
      UnpostedIsValid(b, xml);
      RecordKeepsValid(b, xml, Uncertain, imported);
  }

  lemma ClaimKeepsValid(b: Batch, s: Setting)
    requires Valid(b) && b.row.kind == Posted
    requires b.row.status != Draft && b.row.status != Synced && b.row.status != Closed
    ensures Claim(b.row, s).1.None? ==> Valid(b.(row := Claim(b.row, s).0))
  {
  }

  lemma SyncKeepsValid(b: Batch, s: Setting)
    requires Valid(b) && b.row.status != Draft
    ensures Valid(Sync(b, s))
    ensures b.row.status == Synced ==> Sync(b, s) == b
  {
    hide PostXml, OneRemoteId;
    if b.row.status != Synced && b.row.status != Closed && !LeaseHeld(b.row, s.now) {
      if b.row.kind == Posted {
        ClaimKeepsValid(b, s);
        var (row, payload) := Claim(b.row, s);
        if payload.Some? {
          KeptPayload(b, s);
          PostKeepsValid(b.(row := row), payload.value, s);
        }
      } else {
        OtherKeepsValid(b, s);
      }
    }
  }

  lemma KeptPayload(b: Batch, s: Setting)
    requires Valid(b) && b.row.kind == Posted && b.row.status != Synced && Claim(b.row, s).1.Some?
    ensures var (row, payload) := Claim(b.row, s);
      && s.outcome != CrashBeforeClaim && row.status == Syncing
      && Recordable(b.(row := row), payload.value)
  {
  }

  lemma OtherKeepsValid(b: Batch, s: Setting)
    requires Valid(b) && b.row.kind != Posted && b.row.status != Draft
    ensures Valid(Sync(b, s))
  {
  }

  lemma StepKeepsValid(b: Batch, step: Step)
    requires Valid(b)
    ensures Valid(Apply(b, step))
    ensures b.row.status == Synced ==> Apply(b, step) == b
  {
    hide Sync;
    match step
    case Submitting =>
    case Queueing =>
    case Working(s, due) =>
      if Due(b.row, s.now, due) { SyncKeepsValid(b, s); }
    case Forcing(s) =>
      if b.row.status != Draft { SyncKeepsValid(b, s); }
  }

  lemma {:induction false} RunKeepsValid(b: Batch, steps: seq<Step>)
    requires New(b)
    ensures Valid(Run(b, steps))
    decreases |steps|
  {
    hide Apply;
    if steps != [] {
      RunKeepsValid(b, steps[..|steps| - 1]);
      StepKeepsValid(Run(b, steps[..|steps| - 1]), steps[|steps| - 1]);
    }
  }

  // ----- The guarantees -----

  lemma {:induction false} UncertainPostsRepeat(b: Batch, i: nat, j: nat)
    requires PayloadKept(b) && i <= j < |b.posts|
    requires forall k :: i <= k < j ==> b.posts[k].verdict == Uncertain
    ensures b.posts[j].xml == b.posts[i].xml
    decreases j
  {
    if i < j {
      UncertainPostsRepeat(b, i, j - 1);
    }
  }

  /** All posts with no confirmed rejection between them carry the same XML, in every run. */
  lemma SamePayloadBetweenRejections(b: Batch, steps: seq<Step>, i: nat, j: nat)
    requires New(b) && i <= j < |Run(b, steps).posts|
    requires forall k :: i <= k < j ==> Run(b, steps).posts[k].verdict != Rejected
    ensures Run(b, steps).posts[j].xml == Run(b, steps).posts[i].xml
  {
    hide Run;
    RunKeepsValid(b, steps);
    var b' := Run(b, steps);
    assert forall k :: i <= k < j ==> b'.posts[k].verdict == Uncertain;
    UncertainPostsRepeat(b', i, j);
  }

  /** Every post ever made uses the same remote id, so Tally's books hold at most one voucher. */
  lemma OneVoucher(b: Batch, steps: seq<Step>)
    requires New(b)
    ensures var b' := Run(b, steps);
      && (forall p, q :: p in b'.posts && q in b'.posts ==> p.xml.remoteId == q.xml.remoteId)
      && |b'.books| <= 1
      && (b'.row.status == Synced ==>
            b'.posts != [] && var xml := b'.posts[|b'.posts| - 1].xml; b'.books == map[xml.remoteId := xml])
  {
    hide Run;
    RunKeepsValid(b, steps);
    var b' := Run(b, steps);
    if b'.books != map[] {
      var id := b'.row.remoteId.value;
      assert b'.books.Keys == {id};
      assert |b'.books| == |b'.books.Keys|;
      assert b'.books == map[id := b'.books[id]];
    }
  }

  /** Once SYNCED, a batch is never touched or posted again. */
  lemma {:induction false} SyncedIsFinal(b: Batch, steps: seq<Step>, more: seq<Step>)
    requires New(b) && Run(b, steps).row.status == Synced
    ensures Run(b, steps + more) == Run(b, steps)
    decreases |more|
  {
    hide Apply;
    if more == [] {
      assert steps + more == steps;
    } else {
      var init := more[..|more| - 1];
      SyncedIsFinal(b, steps, init);
      RunKeepsValid(b, steps + init);
      StepKeepsValid(Run(b, steps + init), more[|more| - 1]);
      assert (steps + more)[..|steps + more| - 1] == steps + init;
    }
  }
}
