/**
 When a batch gets to Tally (app/services/sync_worker.py, app/services/tally.py): which passes of the retry worker and
 which direct calls post it, what waits for a lease, and what waits for somebody.
 */
module TallyProgress {
  import opened Options
  import opened TallySync

  /** Tally takes the voucher, and there is one to send. */
  predicate Goes(b: Batch, s: Setting) {
    b.row.kind == Posted && s.enabled && s.outcome == Imported
    && (s.content.Some? || (b.row.requestXml.Some? && b.row.status != Failed))
  }

  /** The voucher that is sent: the frozen one, unless there is none or it was rejected. */
  function Sent(b: Batch, s: Setting): Xml
    requires Goes(b, s)
  {
    if b.row.requestXml.Some? && b.row.status != Failed then b.row.requestXml.value
    else
      var remoteId := match b.row.remoteId { case None => Uuid5(s.company, b.row.batchNumber) case Some(id) => id };
      Xml(remoteId, s.content.value)
  }

  /** It is in the books, under its remote id, and the batch is done. */
  ghost predicate Booked(b: Batch, after: Batch, xml: Xml) {
    after.row.status == Synced && after.posts == b.posts + [Post(xml, Accepted)]
    && after.books == b.books[xml.remoteId := xml]
  }

  /** Submitted, or waiting with its time come, or claimed more than ten minutes ago by a pass that never ended. */
  predicate IsDue(row: Row, now: int, retryDueBefore: int) {
    match row.status
    case Submitted => true
    case PendingSync => row.lastRetryAt.Some? ==> row.lastRetryAt.value <= retryDueBefore
    case Syncing => row.startedAt.Some? && row.startedAt.value + 10 < now
    case _ => false
  }

  /** A pass of the worker posts the batch exactly when it is due, and otherwise leaves it alone. */
  lemma PassPostsExactly(b: Batch, s: Setting, retryDueBefore: int)
    requires Goes(b, s)
    ensures var after := Apply(b, Working(s, retryDueBefore));
            if IsDue(b.row, s.now, retryDueBefore) then Booked(b, after, Sent(b, s)) else after == b
  {
  }

  /** Nor does it touch a batch when posting is switched off, or its type has no voucher. */
  lemma PassNeedsVoucher(b: Batch, s: Setting, retryDueBefore: int)
    requires !s.enabled || b.row.kind != Posted || !IsDue(b.row, s.now, retryDueBefore)
    ensures Apply(b, Working(s, retryDueBefore)) == b
  {
  }

  /** A direct call posts any submitted batch that is not done, unless it was claimed within ten minutes. */
  lemma CallPostsExactly(b: Batch, s: Setting)
    requires Goes(b, s)
    ensures var after, row := Apply(b, Forcing(s)), b.row;
            if row.status in {Draft, Synced, Closed}
               || (row.status == Syncing && row.startedAt.Some? && s.now < row.startedAt.value + 10)
            then after == b
            else Booked(b, after, Sent(b, s))
  {
  }

  /** A rejected batch is not posted again by any pass; queueing it makes it due at once, with a voucher made anew. */
  lemma RejectedWaits(b: Batch, s: Setting, retryDueBefore: int)
    requires b.row.status == Failed
    ensures Apply(b, Working(s, retryDueBefore)) == b
    ensures var queued := Apply(b, Queueing);
            IsDue(queued.row, s.now, retryDueBefore) && queued.row.requestXml == None
            && queued.row.remoteId == b.row.remoteId && queued.posts == b.posts && queued.books == b.books
  {
  }

  /** Audits and label assignments are closed without a post; types without a voucher wait. */
  lemma OthersAreNotPosted(b: Batch, s: Setting)
    requires b.row.kind != Posted
    ensures var after := Apply(b, Forcing(s));
            after.posts == b.posts && after.books == b.books
            && (b.row.status !in {Draft, Synced, Closed}
                && !(b.row.status == Syncing && b.row.startedAt.Some? && s.now < b.row.startedAt.value + 10) ==>
                  after.row.status == if b.row.kind == ClosedOnly then Closed else PendingSync)
  {
  }

  // ----- Unknown outcomes -----

  /** A claim has a time. */
  predicate Timed(b: Batch) {
    b.row.status == Syncing ==> b.row.startedAt.Some?
  }

  lemma StepKeepsTimed(b: Batch, step: Step)
    requires Timed(b)
    ensures Timed(Apply(b, step))
  {
  }

  lemma {:induction false} RunKeepsTimed(b: Batch, steps: seq<Step>)
    requires New(b)
    ensures Timed(Run(b, steps))
    decreases |steps|
  {
    hide Apply;
    if steps != [] {
      RunKeepsTimed(b, steps[..|steps| - 1]);
      StepKeepsTimed(Run(b, steps[..|steps| - 1]), steps[|steps| - 1]);
    }
  }

  /**
   In every run, a post whose outcome is not known heals: the next pass after the lease and the retry time posts the
   very same voucher, so that Tally holds it once, under its remote id.
   */
  lemma UnknownHeals(b: Batch, steps: seq<Step>, s: Setting, retryDueBefore: int)
    requires New(b) && LastWas(Run(b, steps), Uncertain)
    requires s.enabled && s.outcome == Imported
    ensures var now, xml := Run(b, steps), Run(b, steps).posts[|Run(b, steps).posts| - 1].xml;
            (now.row.lastRetryAt.Some? ==> now.row.lastRetryAt.value <= retryDueBefore)
            && (now.row.startedAt.Some? ==> now.row.startedAt.value + 10 < s.now) ==>
              Booked(now, Apply(now, Working(s, retryDueBefore)), xml)
  {
    hide Run, Apply, Booked, OneRemoteId;
    TallySync.RunKeepsValid(b, steps);
    RunKeepsTimed(b, steps);
    var before := Run(b, steps);
    assert Goes(before, s);
    PassPostsExactly(before, s, retryDueBefore);
  }
}
