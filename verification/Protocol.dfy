/**
 Every step the vault's rows can take: task deliveries, the two beat sweeps, provider callbacks
 and what a person does to a memory.  A run is any finite sequence of such steps.
 */
module Protocol {
  import opened Base
  import opened Rows
  import opened Lifecycle

  const REPROCESS_COOLDOWN_SECONDS: nat := 30
  const TRASH_RETENTION_SECONDS: nat := 15 * 24 * 60 * 60
  const TRASH_PURGE_BATCH: nat := 200

  datatype Step =
    /** One delivery of message `index`; an unacknowledged one stays queued although it committed. */
    | Deliver(index: nat, acked: bool, readings: Readings, answer: Answer)
    | SweepStrandedItems(pending: seq<ItemId>, accepted: set<ItemId>, processing: seq<ItemId>)
    | SweepStaleRuns(stale: seq<RunId>, answers: map<RunId, Answer>)
    | Callback(run: RunId)
    | Capture(id: ItemId, item: Item, queued: bool)
    | Reprocess(user: UserId, id: ItemId, redo: bool, queued: bool)
    | Trash(user: UserId, id: ItemId)
    | Restore(user: UserId, id: ItemId)
    | Purge(user: UserId, id: ItemId)
    | PurgeExpired(rows: seq<ItemId>)
    | Wait(seconds: nat)

  // ---- trash, restore and purge of one row ----

  function Trashed(item: Item, now: Time): Item {
    item.(deletedAt := Some(now), updatedAt := now)
  }

  function Restored(item: Item, now: Time): Item {
    item.(deletedAt := None, updatedAt := now)
  }

  function Scrubbed(item: Item, now: Time): Item {
    item.(purgedAt := Some(now), deletedAt := if item.deletedAt.None? then Some(now) else item.deletedAt,
          sourceUrl := None, details := SCRUBBED, error := None, updatedAt := now)
  }

  function WithoutChunks(chunks: map<(ItemId, nat), Chunk>, id: ItemId): map<(ItemId, nat), Chunk> {
    map key | key in chunks && key.0 != id :: chunks[key]
  }

  function PurgedRow(s: Store, id: ItemId): Store
    requires id in s.items
  {
    s.(items := s.items[id := Scrubbed(s.items[id], s.now)], chunks := WithoutChunks(s.chunks, id))
  }

  function PurgedRows(s: Store, rows: seq<ItemId>): (r: Store)
    requires forall id | id in rows :: id in s.items
    ensures r.items.Keys == s.items.Keys
  {
    if rows == [] then s
    else PurgedRow(PurgedRows(s, rows[..|rows| - 1]), rows[|rows| - 1])
  }

  ghost function ExpiredTrash(s: Store): set<ItemId> {
    set id | id in s.items && s.items[id].deletedAt.Some? && s.items[id].purgedAt.None?
             && s.items[id].deletedAt.value + TRASH_RETENTION_SECONDS < s.now
  }

  // ---- deliveries ----

  function RunTask(s: Store, message: Message, r: Readings, a: Answer): Outcome {
    match message
    case ProcessItem(id, _) => Processed(s, id, r)
    case FinalizeRun(run, _) => RunFinalized(s, run, a)
  }

  /** The body runs; a raise is retried while the broker still grants one. */
  function Delivered(s: Store, index: nat, acked: bool, r: Readings, a: Answer): Store
    requires index < |s.queue|
  {
    var message := s.queue[index];
    var taken := if acked then s.(queue := s.queue[..index] + s.queue[index + 1..]) else s;
    var done := RunTask(taken, message, r, a);
    if done.raised && acked && message.retriesLeft > 0
    then done.store.(queue := done.store.queue + [message.(retriesLeft := message.retriesLeft - 1)])
    else done.store
  }

  // ---- a person's requests ----

  /** `reprocess`; `redo` stands for a re-readable video, which lives in metadata not modelled here. */
  predicate Reprocessable(s: Store, user: UserId, id: ItemId, redo: bool) {
    && Owns(s.items, user, id)
    && var item := s.items[id];
       && (|| item.status.Failed? || item.status.Skipped?
           || (item.status.Completed? && (Retranscribable(item) || redo)))
       && item.updatedAt + REPROCESS_COOLDOWN_SECONDS <= s.now
  }

  predicate Retranscribable(item: Item) {
    item.kind.Voice? && Present(item.details.storageKey)
  }

  function Reprocessed(s: Store, id: ItemId, queued: bool): Store
    requires id in s.items
  {
    var item := s.items[id];
    var cleared := if Retranscribable(item) then item.(details := item.details.(content := None)) else item;
    Enqueued(Put(s, id, cleared.(status := Pending, error := None, retryCount := 0)), id, queued)
  }

  function Enqueued(s: Store, id: ItemId, queued: bool): Store {
    if queued then s.(queue := s.queue + [ProcessItem(id, MAX_RETRIES)]) else s
  }

  // ---- steps and runs ----

  /** What a step needs of its environment: the listings really are what the queries return. */
  ghost predicate Legal(s: Store, step: Step) {
    match step
    case Deliver(index, _, _, _) => index < |s.queue|
    case SweepStrandedItems(pending, _, processing) =>
      && IsStrandedListing(s, Pending, STUCK_PENDING_SECONDS, pending)
      && IsStrandedListing(s, Processing, STUCK_PROCESSING_SECONDS, processing)
    case SweepStaleRuns(stale, _) => IsListing(Stale(s), STALE_LIMIT, stale)
    case Capture(id, item, _) =>
      && id !in s.items && (forall key | key in s.chunks :: key.0 != id)
      && item.status.Pending? && item.retryCount == 0 && item.deletedAt.None? && item.purgedAt.None?
    case PurgeExpired(rows) => IsListing(ExpiredTrash(s), TRASH_PURGE_BATCH, rows)
    case _ => true
  }

  ghost function Next(s: Store, step: Step): Store
    requires Legal(s, step)
  {
    match step
    case Deliver(index, acked, r, a) => Delivered(s, index, acked, r, a)
    case SweepStrandedItems(pending, accepted, processing) => StrandedSwept(s, pending, accepted, processing)
    case SweepStaleRuns(stale, answers) =>
      assert forall run | run in stale :: run in Stale(s);
      var tick := StaleSwept(s, stale, answers);
      if tick.Aborted? then s else tick.store
    case Callback(run) => s.(queue := s.queue + [FinalizeRun(run, MAX_RETRIES)])
    case Capture(id, item, queued) => Enqueued(Put(s, id, item), id, queued)
    case Reprocess(user, id, redo, queued) =>
      if Reprocessable(s, user, id, redo) then Reprocessed(s, id, queued) else s
    case Trash(user, id) =>
      if Owns(s.items, user, id) then s.(items := s.items[id := Trashed(s.items[id], s.now)]) else s
    case Restore(user, id) =>
      if Restorable(s.items, user, id) then s.(items := s.items[id := Restored(s.items[id], s.now)]) else s
    case Purge(user, id) => if Restorable(s.items, user, id) then PurgedRow(s, id) else s
    case PurgeExpired(rows) =>
      assert forall id | id in rows :: id in ExpiredTrash(s);
      PurgedRows(s, rows)
    case Wait(seconds) => s.(now := s.now + seconds)
  }

  ghost predicate IsRun(states: seq<Store>, steps: seq<Step>) {
    && |states| == |steps| + 1
    && forall i | 0 <= i < |steps| :: Legal(states[i], steps[i]) && states[i + 1] == Next(states[i], steps[i])
  }
}
