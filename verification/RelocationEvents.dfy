/**
 Reporting a relocation (app/services/relocation.py:357-398): the moved units are sent to Master
 in chunks, queued in the same transaction as the move.
 */
module RelocationEvents {
  import opened Options
  import opened CanonicalJson
  import opened EventEnvelope
  import opened StockTypes
  import opened Sequences
  import opened Relocation
  import opened Outbox
  import BatchEvents

  /** Who moved the stock, and the reference of the request's first relocation row. */
  datatype Sender = Sender(reference: string, actor: Json, occurredAt: string)

  function Chunks<T>(items: seq<T>): seq<seq<T>>
    decreases |items|
  {
    if items == [] then []
    else if |items| <= MAX_ITEMS then [items]
    else [items[..MAX_ITEMS]] + Chunks(items[MAX_ITEMS..])
  }

  function ChunkRequest(s: Sender, part: nat, chunk: seq<Json>, eventId: string): Request {
    var reference := s.reference + ":PART-" + Decimal(part);
    Request("STOCK_SNAPSHOT", Aggregate.Relocation, reference,
      [Member("reference", Str(reference)), Member("actor", s.actor), Member("reason_code", Str("RELOCATION")),
       Member("items", Arr(chunk))],
      s.occurredAt, None, eventId)
  }

  /** Queue the first `n` chunks, one event each; `ids` are the fresh UUIDs. */
  function EnqueueChunks(lite: Lite, s: Sender, chunks: seq<seq<Json>>, ids: nat -> string, n: nat): Option<Lite>
    requires n <= |chunks|
  {
    if n == 0 then Some(lite)
    else
      var before :- EnqueueChunks(lite, s, chunks, ids, n - 1);
      Enqueue(before, ChunkRequest(s, n, chunks[n - 1], ids(n)))
  }

  /** `network_event_item` of each moved unit, as it is after the move. */
  function Snapshots(snapshot: Serial -> Json, m: Move): (r: seq<Json>)
    ensures |r| == |m.moved|
  {
    seq(|m.moved|, k requires 0 <= k < |m.moved| =>
      if m.moved[k] in m.serials then snapshot(m.serials[m.moved[k]]) else Null)
  }

  /** `relocate_stock`: the move and its events are committed together, or neither is. */
  function RelocateAndReport(st: Stock, lite: Lite, locations: map<nat, Location>, destination: nat,
      items: seq<MoveItem>,
                             s: Sender, snapshot: Serial -> Json, ids: nat -> string): Option<(Stock, Lite)>
  {
    var m :- Relocate(st, locations, destination, items);
    var chunks := Chunks(Snapshots(snapshot, m));
    var queued :- EnqueueChunks(lite, s, chunks, ids, |chunks|);
    Some((st.(serials := m.serials, ledger := m.ledger), queued))
  }

  // ----- The chunks carry every moved unit once, in order -----

  ghost predicate ChunkOk<T>(chunk: seq<T>) {
    1 <= |chunk| <= MAX_ITEMS
  }

  lemma {:induction false} ChunksPartition<T>(items: seq<T>)
    ensures Flatten(Chunks(items)) == items
    ensures forall c <- Chunks(items) :: ChunkOk(c)
    ensures MAX_ITEMS * (|Chunks(items)| - 1) < |items| <= MAX_ITEMS * |Chunks(items)|
         || (items == [] && Chunks(items) == [])
    decreases |items|
  {
    if |items| > MAX_ITEMS {
      ChunksPartition(items[MAX_ITEMS..]);
      FlattenCons(items[..MAX_ITEMS], Chunks(items[MAX_ITEMS..]));
      assert items == items[..MAX_ITEMS] + items[MAX_ITEMS..];
    } else if items != [] {
      FlattenSnoc([], items);
      assert [items] == [] + [items];
    }
  }

  lemma ChunkItemCount(s: Sender, part: nat, chunk: seq<Json>, eventId: string)
    ensures ItemCount(ChunkRequest(s, part, chunk, eventId).payload) == |chunk|
  {
    assert "reference"[0] == 'r' && "actor"[0] == 'a' && "items"[0] == 'i';
    assert |"reason_code"| != |"items"|;
    var reference := ChunkRequest(s, part, chunk, eventId).aggregateId;
    FourthIsItems(Member("reference", Str(reference)), Member("actor", s.actor),
      Member("reason_code", Str("RELOCATION")), chunk);
  }

  /** No chunk is refused for its item count: only its size in bytes or a repeated id can stop it. */
  lemma ChunkRefusedExactly(lite: Lite, s: Sender, part: nat, chunk: seq<Json>, eventId: string)
    requires Initialized(lite) && ChunkOk(chunk) && |lite.events| < MAX_SEQUENCE
    ensures Enqueue(lite, ChunkRequest(s, part, chunk, eventId)).None? <==>
            HasEventId(lite.events, eventId)
            || Size(Frozen(ChunkRequest(s, part, chunk, eventId), |lite.events| + 1).body) > MAX_BODY_BYTES
  {
    hide Frozen, Initialized, HasEventId, ItemCount, Size;
    ChunkItemCount(s, part, chunk, eventId);
  }

  /** The events queued for the first `n` chunks. */
  ghost predicate Reported(was: seq<Event>, events: seq<Event>, s: Sender, chunks: seq<seq<Json>>,
      ids: nat -> string, n: nat)
    requires n <= |chunks|
  {
    |events| == |was| + n && was <= events
    && forall k :: 0 <= k < n ==>
        events[|was| + k] == Frozen(ChunkRequest(s, k + 1, chunks[k], ids(k + 1)), |was| + k + 1)
  }

  lemma {:induction false} EnqueuedChunks(lite: Lite, s: Sender, chunks: seq<seq<Json>>, ids: nat -> string, n: nat)
    requires n <= |chunks| && EnqueueChunks(lite, s, chunks, ids, n).Some?
    ensures var queued := EnqueueChunks(lite, s, chunks, ids, n).value;
            queued.code == lite.code && queued.batches == lite.batches
            && Reported(lite.events, queued.events, s, chunks, ids, n)
    decreases n
  {
    hide Enqueue, Frozen, ChunkRequest;
    if n > 0 {
      EnqueuedChunks(lite, s, chunks, ids, n - 1);
      var before := EnqueueChunks(lite, s, chunks, ids, n - 1).value;
      BatchEvents.EnqueueIsSnoc(before, ChunkRequest(s, n, chunks[n - 1], ids(n)));
    }
  }

  /**
   A committed relocation is reported in full: its new events, in order, carry chunks of at most
   5000 snapshots that together are the moved units in the order they moved; nothing else is queued.
   A refused one leaves both the stock and the outbox alone.
   */
  lemma RelocationIsReported(st: Stock, lite: Lite, locations: map<nat, Location>, destination: nat,
      items: seq<MoveItem>,
                             s: Sender, snapshot: Serial -> Json, ids: nat -> string)
    requires RelocateAndReport(st, lite, locations, destination, items, s, snapshot, ids).Some?
    ensures var (stock, queued) := RelocateAndReport(st, lite, locations, destination, items, s, snapshot, ids).value;
            var m := Relocate(st, locations, destination, items).value;
            var chunks := Chunks(Snapshots(snapshot, m));
            stock == st.(serials := m.serials, ledger := m.ledger)
            && queued.code == lite.code && queued.batches == lite.batches
            && Reported(lite.events, queued.events, s, chunks, ids, |chunks|)
            && Flatten(chunks) == Snapshots(snapshot, m)
            && forall c <- chunks :: ChunkOk(c)
  {
    hide Relocate, EnqueueChunks, Reported, Chunks, Snapshots;
    var m := Relocate(st, locations, destination, items).value;
    var snapshots := Snapshots(snapshot, m);
    ChunksPartition(snapshots);
    EnqueuedChunks(lite, s, Chunks(snapshots), ids, |Chunks(snapshots)|);
  }
}
