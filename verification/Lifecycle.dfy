/**
 The capture lifecycle as atomic task steps over the stored rows.  One task body runs in one
 transaction, so a step either commits as a whole or leaves the store as it found it.
 */
module Lifecycle {
  import opened Base
  import opened Rows

  const MAX_RETRIES: nat := 3
  const MAX_SWEEP_REQUEUES: nat := 3
  const STUCK_PENDING_SECONDS: nat := 10 * 60
  const STUCK_PROCESSING_SECONDS: nat := 15 * 60
  const RUN_TIMEOUT_SECONDS: nat := 20 * 60
  const STRANDED_LIMIT: nat := 100
  const STALE_LIMIT: nat := 50
  const MAX_CHUNK_CHARS := 8000
  const MAX_RUN_ERROR_CHARS := 500

  /** A queued task with the retries the broker still grants it. */
  datatype Message =
    | ProcessItem(item: ItemId, retriesLeft: nat)
    | FinalizeRun(run: RunId, retriesLeft: nat)

  datatype Store = Store(
    items: Items, runs: map<RunId, Run>, chunks: map<(ItemId, nat), Chunk>,
    queue: seq<Message>, now: Time)

  // ---- what the outside world answers ----

  datatype Fault = Fault(permanent: bool, reason: string)

  datatype Extraction =
    | ExtractFailed(fault: Fault)
    | Deferred(run: RunId)
    | Extracted(kind: ContentType, details: Details, enrich: bool)

  /** Re-reading a stored recording or picture. */
  datatype MediaReading = NothingToRead | ReadText(content: string) | Unreadable | MediaFault(reason: string)

  datatype AiReading =
    | AiFault(reason: string)
    | AiRead(summary: string, tags: seq<string>, category: Option<string>, aiLabel: string,
             highlights: seq<string>, vector: Result<Vector, string>)

  datatype Readings = Readings(extraction: Extraction, media: MediaReading, ai: AiReading)

  datatype Payload = Built(kind: ContentType, details: Details) | BuildFailed(fault: Fault)

  /** The provider's answer about a run; `payload` is `None` when reading its dataset raised. */
  datatype Answer =
    | LookupFailed
    | Answer(status: string, dataset: Option<string>, payload: Option<Payload>, ai: AiReading)

  /** What one task body did: the committed store, and whether it raised. */
  datatype Outcome = Outcome(store: Store, raised: bool, run: Option<RunId>)

  // ---- one item ----

  /** Writing a row moves its `updated_at`. */
  function Put(s: Store, id: ItemId, item: Item): Store {
    s.(items := s.items[id := item.(updatedAt := s.now)])
  }

  function ReadableText(item: Item): string {
    if Present(item.details.content) then item.details.content.value
    else if Present(item.details.title) then item.details.title.value
    else ""
  }

  function FailedItem(item: Item, reason: string): Item {
    item.(status := Failed, error := Some(reason), retryCount := item.retryCount + 1)
  }

  function SkippedItem(item: Item): Item {
    item.(status := Skipped, retryCount := 0)
  }

  function EmbedInput(item: Item): string {
    item.details.title.GetOr("") + "\n" + item.details.summary.GetOr("") + "\n" + ReadableText(item)
  }

  function Labelled(item: Item, ai: AiReading): Item
    requires ai.AiRead?
  {
    item.(details := item.details.(
      summary := Some(ai.summary), tags := ai.tags, category := ai.category,
      aiLabel := if ai.aiLabel == "" then None else Some(ai.aiLabel), highlights := ai.highlights))
  }

  /** `upsert_chunk` at index 0: an existing chunk keeps its owner. */
  function WithChunk(s: Store, id: ItemId, owner: UserId, vector: Vector, content: string): Store {
    var chunk := if (id, 0) in s.chunks then s.chunks[(id, 0)].(vector := vector, content := content)
                 else Chunk(owner, vector, content);
    s.(chunks := s.chunks[(id, 0) := chunk])
  }

  /** `_enrich` and the bookkeeping of its failure. */
  function Enriched(s: Store, id: ItemId, item: Item, ai: AiReading): Outcome {
    if Blank(ReadableText(item)) then
      Outcome(Put(s, id, FailedItem(item, "No content extracted to process")), true, None)
    else match ai
      case AiFault(reason) => Outcome(Put(s, id, FailedItem(item, reason)), true, None)
      case AiRead(_, _, _, _, _, Err(reason)) =>
        Outcome(Put(s, id, FailedItem(Labelled(item, ai), reason)), true, None)
      case AiRead(_, _, _, _, _, Ok(vector)) =>
        var read := Labelled(item, ai);
        Outcome(
          Put(WithChunk(s, id, item.owner, vector, Take(EmbedInput(read), MAX_CHUNK_CHARS)),
              id, read.(status := Completed, retryCount := 0)),
          false, None)
  }

  function FailedWith(s: Store, id: ItemId, item: Item, fault: Fault): Outcome {
    Outcome(Put(s, id, FailedItem(item, fault.reason)), !fault.permanent, None)
  }

  predicate NeedsMedia(item: Item) {
    (item.kind.Voice? || item.kind.Image?) && !Present(item.details.content)
  }

  /** `ProcessingService.process` as one committed transaction. */
  function Processed(s: Store, id: ItemId, r: Readings): Outcome {
    if !Live(s.items, id) then Outcome(s, false, None)
    else
      var item := s.items[id].(status := Processing, error := None);
      if Present(item.sourceUrl) then
        match r.extraction
        case ExtractFailed(fault) => FailedWith(s, id, item, fault)
        case Deferred(run) =>
          // A run id the table already holds violates its unique key and nothing commits.
          if run in s.runs then Outcome(s, true, None)
          else Outcome(Put(s, id, item).(runs := s.runs[run := Run(id, Running, None, None, s.now, None)]),
                       false, Some(run))
        case Extracted(kind, details, enrich) =>
          var applied := item.(kind := kind, details := details);
          if enrich then Enriched(s, id, applied, r.ai)
          else Outcome(Put(s, id, SkippedItem(applied)), false, None)
      else if NeedsMedia(item) then
        match r.media
        case NothingToRead => Outcome(Put(s, id, SkippedItem(item)), false, None)
        case Unreadable => Outcome(Put(s, id, SkippedItem(item)), false, None)
        case MediaFault(reason) => FailedWith(s, id, item, Fault(false, reason))
        case ReadText(content) =>
          Enriched(s, id, item.(details := item.details.(content := Some(content))), r.ai)
      else Enriched(s, id, item, r.ai)
  }

  /** `ProcessingService.finalize`. */
  function Finalized(s: Store, id: ItemId, payload: Payload, ai: AiReading): Outcome {
    if !Live(s.items, id) || s.items[id].status.Completed? then Outcome(s, false, None)
    else match payload
      case BuildFailed(fault) => FailedWith(s, id, s.items[id], fault)
      case Built(kind, details) => Enriched(s, id, s.items[id].(kind := kind, details := details), ai)
  }

  /** `ProcessingService.fail_item`. */
  function ItemFailed(s: Store, id: ItemId, reason: string): Store {
    if !Live(s.items, id) || s.items[id].status.Completed? then s
    else Put(s, id, FailedItem(s.items[id], reason))
  }

  // ---- one run ----

  function Marked(s: Store, run: RunId, status: RunStatus, error: Option<string>): Store
    requires run in s.runs
  {
    var cut := if Present(error) then Some(Take(error.value, MAX_RUN_ERROR_CHARS)) else None;
    s.(runs := s.runs[run := s.runs[run].(status := status, error := cut, finishedAt := Some(s.now))])
  }

  function WithDataset(s: Store, run: RunId, dataset: string): Store
    requires run in s.runs
  {
    s.(runs := s.runs[run := s.runs[run].(datasetId := Some(dataset))])
  }

  predicate HasDataset(a: Answer) {
    a.Answer? && a.status == "SUCCEEDED" && Present(a.dataset)
  }

  /** `fetch_payload` returns: the item is live, has a source, and its dataset could be read. */
  predicate Fetchable(s: Store, id: ItemId, a: Answer) {
    Live(s.items, id) && Present(s.items[id].sourceUrl) && a.Answer? && a.payload.Some?
  }

  function EndedAs(a: Answer): string
    requires a.Answer?
  {
    "Apify run ended as " + if a.status == "" then "UNKNOWN" else a.status
  }

  /** `_finalize_run`: the webhook's task body. */
  function RunFinalized(s: Store, run: RunId, a: Answer): Outcome {
    if run !in s.runs || !s.runs[run].status.Running? then Outcome(s, false, None)
    else
      var id := s.runs[run].item;
      if a.LookupFailed? then Outcome(s, true, None)
      else if !HasDataset(a) then
        Outcome(Marked(ItemFailed(s, id, EndedAs(a)), run, RunFailed, Some(EndedAs(a))), false, None)
      else if !Fetchable(s, id, a) then Outcome(s, true, None)
      else
        var done := Finalized(WithDataset(s, run, a.dataset.value), id, a.payload.value, a.ai);
        Outcome(Marked(done.store, run, Succeeded, None), done.raised, None)
  }

  // ---- the two sweeps ----

  /** The rows `list_stranded` may return: in `status` too long, live, and without a running run. */
  ghost function Stranded(s: Store, status: ProcessingStatus, seconds: nat): set<ItemId> {
    set id | id in s.items && s.items[id].status == status && s.items[id].updatedAt + seconds < s.now
             && s.items[id].deletedAt.None? && id !in ItemsWithRunningRun(s)
  }

  ghost function ItemsWithRunningRun(s: Store): set<ItemId> {
    set run | run in s.runs && s.runs[run].status.Running? :: s.runs[run].item
  }

  ghost predicate IsStrandedListing(s: Store, status: ProcessingStatus, seconds: nat, rows: seq<ItemId>) {
    && IsListing(Stranded(s, status, seconds), STRANDED_LIMIT, rows)
    && (forall x | x in rows :: x in s.items)
    && (forall i, j | 0 <= i < j < |rows| :: s.items[rows[i]].updatedAt <= s.items[rows[j]].updatedAt)
    && (forall x, y | x in rows && y in Stranded(s, status, seconds) && y !in rows ::
          s.items[x].updatedAt <= s.items[y].updatedAt)
  }

  ghost function Stale(s: Store): set<RunId> {
    set run | run in s.runs && s.runs[run].status.Running?
              && s.runs[run].createdAt + RUN_TIMEOUT_SECONDS < s.now
  }

  const NEVER_QUEUED := 
    "This never reached the processing queue. Try again — if it keeps happening, "
    + "the background service needs attention."
  const STOPPED_PARTWAY := 
    "Processing stopped partway through — the background worker went away before it finished. "
    + "Nothing was lost; try again."

  /** What one stranded sweep does to one pending row. */
  function SweptPending(item: Item): Item {
    if item.retryCount >= MAX_SWEEP_REQUEUES then item.(status := Failed, error := Some(NEVER_QUEUED))
    else item.(retryCount := item.retryCount + 1)
  }

  function SweptItem(s: Store, id: ItemId, pending: seq<ItemId>, processing: seq<ItemId>): Item
    requires id in s.items
  {
    if id in pending then SweptPending(s.items[id]).(updatedAt := s.now)
    else if id in processing then FailedItem(s.items[id], STOPPED_PARTWAY).(updatedAt := s.now)
    else s.items[id]
  }

  /** The messages a stranded sweep sends: one per row it still re-drives and the broker accepted. */
  function Requeued(items: Items, pending: seq<ItemId>, accepted: set<ItemId>): seq<Message>
    requires forall id | id in pending :: id in items
  {
    if pending == [] then []
    else
      var last := pending[|pending| - 1];
      Requeued(items, pending[..|pending| - 1], accepted) + Resent(items[last], last, last in accepted)
  }

  function Resent(item: Item, id: ItemId, accepted: bool): seq<Message> {
    if item.retryCount < MAX_SWEEP_REQUEUES && accepted then [ProcessItem(id, MAX_RETRIES)] else []
  }

  function Exhausted(items: Items, pending: seq<ItemId>): nat
    requires forall id | id in pending :: id in items
  {
    if pending == [] then 0
    else
      Exhausted(items, pending[..|pending| - 1]) +
      if items[pending[|pending| - 1]].retryCount >= MAX_SWEEP_REQUEUES then 1 else 0
  }

  function StrandedSwept(s: Store, pending: seq<ItemId>, accepted: set<ItemId>, processing: seq<ItemId>): Store
    requires forall id | id in pending :: id in s.items
  {
    s.(items := map id | id in s.items :: SweptItem(s, id, pending, processing),
       queue := s.queue + Requeued(s.items, pending, accepted))
  }

  /** One run of a stale sweep: aborted when the tick's exception escapes, else the new store. */
  datatype Rescue = Aborted | Rescue(store: Store, rescued: nat)

  function Ask(answers: map<RunId, Answer>, run: RunId): Answer {
    if run in answers then answers[run] else LookupFailed
  }

  function SweptRun(s: Store, run: RunId, a: Answer): (r: Rescue)
    requires run in s.runs
    ensures r.Rescue? ==> r.store.runs.Keys == s.runs.Keys
  {
    var id := s.runs[run].item;
    if a.LookupFailed? || a.status == "READY" || a.status == "RUNNING" then Rescue(s, 0)
    else if HasDataset(a) then
      if !Fetchable(s, id, a) then Aborted
      else
        var done := Finalized(WithDataset(s, run, a.dataset.value), id, a.payload.value, a.ai);
        if done.raised then Aborted else Rescue(Marked(done.store, run, Succeeded, None), 1)
    else
      var reason := EndedAs(a) + " (no callback received)";
      Rescue(Marked(ItemFailed(s, id, reason), run, TimedOut, Some(reason)), 1)
  }

  function StaleSwept(s: Store, stale: seq<RunId>, answers: map<RunId, Answer>): Rescue
    requires forall run | run in stale :: run in s.runs
    decreases |stale|
  {
    if stale == [] then Rescue(s, 0)
    else
      var first := SweptRun(s, stale[0], Ask(answers, stale[0]));
      if first.Aborted? then Aborted
      else
        var rest := StaleSwept(first.store, stale[1..], answers);
        if rest.Aborted? then Aborted else Rescue(rest.store, first.rescued + rest.rescued)
  }
}
