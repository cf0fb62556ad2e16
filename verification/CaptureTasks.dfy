/** The task bodies of the capture pipeline, updating the rows of one session step by step. */
module CaptureTasks {
  import opened Base
  import opened Rows
  import opened Lifecycle
  import TaskOutcomes

  /** The rows after a sweep of these pending ones. */
  ghost function PendingSwept(items: Items, pending: seq<ItemId>, now: Time): Items {
    map id | id in items :: if id in pending then SweptPending(items[id]).(updatedAt := now) else items[id]
  }

  /** One more row of the pending listing. */
  lemma SweptPrefix(items: Items, pending: seq<ItemId>, i: nat, accepted: set<ItemId>, now: Time)
    requires i < |pending| && Distinct(pending)
    requires forall id | id in pending :: id in items
    ensures var id := pending[i];
            && id in PendingSwept(items, pending[..i], now) && PendingSwept(items, pending[..i], now)[id] == items[id]
            && PendingSwept(items, pending[..i + 1], now)
               == PendingSwept(items, pending[..i], now)[id := SweptPending(items[id]).(updatedAt := now)]
            && Requeued(items, pending[..i + 1], accepted)
               == Requeued(items, pending[..i], accepted) + Resent(items[id], id, id in accepted)
            && Exhausted(items, pending[..i + 1])
               == Exhausted(items, pending[..i]) + if items[id].retryCount >= MAX_SWEEP_REQUEUES then 1 else 0
  {
    assert pending[..i + 1] == pending[..i] + [pending[i]];
    assert pending[..i + 1][..i] == pending[..i];
    assert pending[i] !in pending[..i];
  }

  /** One database session: the rows it sees and the task bodies that update them in place. */
  class TaskSession {
    var items: Items
    var runs: map<RunId, Run>
    var chunks: map<(ItemId, nat), Chunk>
    var queue: seq<Message>
    var now: Time

    constructor (s: Store)
      ensures State() == s
    {
      items, runs, chunks, queue, now := s.items, s.runs, s.chunks, s.queue, s.now;
    }

    ghost function State(): Store
      reads this
    {
      Store(items, runs, chunks, queue, now)
    }

    method Add(id: ItemId, item: Item)
      modifies `items
      ensures State() == Put(old(State()), id, item)
    {
      items := items[id := item.(updatedAt := now)];
    }

    method Fail(id: ItemId, item: Item, reason: string)
      modifies `items
      ensures State() == Put(old(State()), id, FailedItem(item, reason))
    {
      var row := item.(status := Failed);
      row := row.(error := Some(reason));
      row := row.(retryCount := row.retryCount + 1);
      Add(id, row);
    }

    method Skip(id: ItemId, item: Item)
      modifies `items
      ensures State() == Put(old(State()), id, SkippedItem(item))
    {
      var row := item.(status := Skipped);
      row := row.(retryCount := 0);
      Add(id, row);
    }

    method UpsertChunk(id: ItemId, owner: UserId, vector: Vector, content: string)
      modifies `chunks
      ensures State() == WithChunk(old(State()), id, owner, vector, content)
    {
      if (id, 0) !in chunks {
        chunks := chunks[(id, 0) := Chunk(owner, vector, content)];
      } else {
        var existing := chunks[(id, 0)];
        existing := existing.(vector := vector);
        existing := existing.(content := content);
        chunks := chunks[(id, 0) := existing];
      }
    }

    /** `_enrich` together with the `except` clause both of its callers wrap around it. */
    method Enrich(id: ItemId, item: Item, ai: AiReading) returns (raised: bool)
      modifies `items, `chunks
      ensures Outcome(State(), raised, None) == Enriched(old(State()), id, item, ai)
    {
      var text := ReadableText(item);
      if Blank(text) {
        Fail(id, item, "No content extracted to process");
        return true;
      }
      if ai.AiFault? {
        Fail(id, item, ai.reason);
        return true;
      }
      var row := Labelled(item, ai);
      if ai.vector.Err? {
        Fail(id, row, ai.vector.error);
        return true;
      }
      UpsertChunk(id, row.owner, ai.vector.value, Take(EmbedInput(row), MAX_CHUNK_CHARS));
      row := row.(status := Completed);
      row := row.(retryCount := 0);
      Add(id, row);
      return false;
    }

    method Process(id: ItemId, r: Readings) returns (raised: bool, run: Option<RunId>)
      modifies `items, `chunks, `runs
      ensures Outcome(State(), raised, run) == Processed(old(State()), id, r)
    {
      if !Live(items, id) {
        return false, None;
      }
      // The claim is one row of the transaction and is only visible once it commits.
      var item := items[id];
      item := item.(status := Processing);
      item := item.(error := None);
      run := None;
      if Present(item.sourceUrl) {
        match r.extraction
        case ExtractFailed(fault) =>
          Fail(id, item, fault.reason);
          raised := !fault.permanent;
        case Deferred(started) =>
          if started in runs {
            return true, None;
          }
          Add(id, item);
          runs := runs[started := Run(id, Running, None, None, now, None)];
          return false, Some(started);
        case Extracted(kind, details, enrich) =>
          item := item.(kind := kind, details := details);
          if enrich {
            raised := Enrich(id, item, r.ai);
          } else {
            Skip(id, item);
            raised := false;
          }
      } else if NeedsMedia(item) {
        match r.media
        case NothingToRead =>
          Skip(id, item);
          raised := false;
        case Unreadable =>
          Skip(id, item);
          raised := false;
        case MediaFault(reason) =>
          Fail(id, item, reason);
          raised := true;
        case ReadText(content) =>
          item := item.(details := item.details.(content := Some(content)));
          raised := Enrich(id, item, r.ai);
      } else {
        raised := Enrich(id, item, r.ai);
      }
    }

    method Finalize(id: ItemId, payload: Payload, ai: AiReading) returns (raised: bool)
      modifies `items, `chunks
      ensures Outcome(State(), raised, None) == Finalized(old(State()), id, payload, ai)
    {
      if !Live(items, id) || items[id].status.Completed? {
        return false;
      }
      match payload
      case BuildFailed(fault) =>
        Fail(id, items[id], fault.reason);
        raised := !fault.permanent;
      case Built(kind, details) =>
        raised := Enrich(id, items[id].(kind := kind, details := details), ai);
    }

    method FailItem(id: ItemId, reason: string)
      modifies `items
      ensures State() == ItemFailed(old(State()), id, reason)
    {
      if Live(items, id) && !items[id].status.Completed? {
        Fail(id, items[id], reason);
      }
    }

    method Mark(run: RunId, status: RunStatus, error: Option<string>)
      requires run in runs
      modifies `runs
      ensures State() == Marked(old(State()), run, status, error)
    {
      var row := runs[run].(status := status);
      row := row.(error := if Present(error) then Some(Take(error.value, MAX_RUN_ERROR_CHARS)) else None);
      row := row.(finishedAt := Some(now));
      runs := runs[run := row];
    }

    method FinalizeRunTask(run: RunId, a: Answer) returns (raised: bool)
      modifies `items, `chunks, `runs
      ensures Outcome(State(), raised, None) == RunFinalized(old(State()), run, a)
    {
      if run !in runs || !runs[run].status.Running? {
        return false;
      }
      var id := runs[run].item;
      if a.LookupFailed? {
        return true;
      }
      if !HasDataset(a) {
        FailItem(id, EndedAs(a));
        Mark(run, RunFailed, Some(EndedAs(a)));
        return false;
      }
      if !Live(items, id) || !Present(items[id].sourceUrl) || a.payload.None? {
        return true;
      }
      runs := runs[run := runs[run].(datasetId := a.dataset)];
      raised := Finalize(id, a.payload.value, a.ai);
      Mark(run, Succeeded, None);
    }

    /** `sweep_stranded_items`; `accepted` are the rows whose enqueue the broker took. */
    method SweepStrandedItems(pending: seq<ItemId>, accepted: set<ItemId>, processing: seq<ItemId>)
      returns (requeued: nat, failed: nat)
      requires IsStrandedListing(State(), Pending, STUCK_PENDING_SECONDS, pending)
      requires IsStrandedListing(State(), Processing, STUCK_PROCESSING_SECONDS, processing)
      modifies `items, `queue
      ensures State() == StrandedSwept(old(State()), pending, accepted, processing)
      ensures requeued == |TaskOutcomes.Redrivable(old(items), pending, accepted)|
      ensures failed == |TaskOutcomes.Spent(old(items), pending)| + |processing|
    {
      TaskOutcomes.RequeuedCount(items, pending, accepted);
      ghost var before := State();
      requeued, failed := SweepPending(pending, accepted);
      var abandoned := SweepProcessing(processing);
      failed := failed + abandoned;
      forall id | id in before.items
        ensures items[id] == SweptItem(before, id, pending, processing)
      {
        assert id in pending ==> id in Stranded(before, Pending, STUCK_PENDING_SECONDS);
        assert id in processing ==> id in Stranded(before, Processing, STUCK_PROCESSING_SECONDS);
      }
    }

    method SweepOnePending(id: ItemId, accepted: bool) returns (sent: nat, gaveUp: nat)
      requires id in items
      modifies `items, `queue
      ensures items == old(items)[id := SweptPending(old(items)[id]).(updatedAt := now)]
      ensures queue == old(queue) + Resent(old(items)[id], id, accepted)
      ensures sent == |Resent(old(items)[id], id, accepted)|
      ensures gaveUp == if old(items)[id].retryCount >= MAX_SWEEP_REQUEUES then 1 else 0
    {
      sent, gaveUp := 0, 0;
      var item := items[id];
      if item.retryCount >= MAX_SWEEP_REQUEUES {
        item := item.(status := Failed);
        item := item.(error := Some(NEVER_QUEUED));
        Add(id, item);
        return 0, 1;
      }
      Add(id, item.(retryCount := item.retryCount + 1));
      if accepted {
        queue := queue + [ProcessItem(id, MAX_RETRIES)];
        sent := 1;
      }
    }

    /** The first half: rows that were never picked up. */
    method SweepPending(pending: seq<ItemId>, accepted: set<ItemId>) returns (requeued: nat, failed: nat)
      requires Distinct(pending) && forall id | id in pending :: id in items
      modifies `items, `queue
      ensures items == PendingSwept(old(items), pending, now)
      ensures queue == old(queue) + Requeued(old(items), pending, accepted)
      ensures requeued == |Requeued(old(items), pending, accepted)|
      ensures failed == Exhausted(old(items), pending)
    {
      requeued, failed := 0, 0;
      ghost var before := items;
      assert PendingSwept(before, [], now) == before;
      for i := 0 to |pending|
        invariant items == PendingSwept(before, pending[..i], now)
        invariant queue == old(queue) + Requeued(before, pending[..i], accepted)
        invariant requeued == |Requeued(before, pending[..i], accepted)|
        invariant failed == Exhausted(before, pending[..i])
      {
        SweptPrefix(before, pending, i, accepted, now);
        var sent, gaveUp := SweepOnePending(pending[i], pending[i] in accepted);
        requeued := requeued + sent;
        failed := failed + gaveUp;
      }
      assert pending[..|pending|] == pending;
    }

    /** The second half: rows a worker claimed and then abandoned. */
    method SweepProcessing(processing: seq<ItemId>) returns (failed: nat)
      requires Distinct(processing) && forall id | id in processing :: id in items
      modifies `items
      ensures items.Keys == old(items.Keys)
      ensures forall id | id in items ::
                items[id] == if id in processing then FailedItem(old(items[id]), STOPPED_PARTWAY).(updatedAt := now)
                             else old(items[id])
      ensures failed == |processing|
    {
      failed := 0;
      for i := 0 to |processing|
        invariant items.Keys == old(items.Keys)
        invariant forall k | i <= k < |processing| :: items[processing[k]] == old(items)[processing[k]]
        invariant forall k | 0 <= k < i ::
                    items[processing[k]] == FailedItem(old(items)[processing[k]], STOPPED_PARTWAY).(updatedAt := now)
        invariant forall id | id in items && id !in processing :: items[id] == old(items)[id]
        invariant failed == i
      {
        Fail(processing[i], items[processing[i]], STOPPED_PARTWAY);
        failed := failed + 1;
      }
    }

    /** One run of a stale sweep; `ok` is false when an exception escapes. */
    method RescueRun(run: RunId, a: Answer) returns (ok: bool, rescued: nat)
      requires run in runs
      modifies `items, `chunks, `runs
      ensures ok <==> SweptRun(old(State()), run, a).Rescue?
      ensures ok ==> Rescue(State(), rescued) == SweptRun(old(State()), run, a)
    {
      if a.LookupFailed? || a.status == "READY" || a.status == "RUNNING" {
        return true, 0;
      }
      var id := runs[run].item;
      if HasDataset(a) {
        if !Live(items, id) || !Present(items[id].sourceUrl) || a.payload.None? {
          return false, 0;
        }
        runs := runs[run := runs[run].(datasetId := a.dataset)];
        var raised := Finalize(id, a.payload.value, a.ai);
        if raised {
          return false, 0;
        }
        Mark(run, Succeeded, None);
      } else {
        var reason := EndedAs(a) + " (no callback received)";
        FailItem(id, reason);
        Mark(run, TimedOut, Some(reason));
      }
      return true, 1;
    }

    /** `sweep_stale_runs`: an escaping exception rolls the whole tick back. */
    method SweepStaleRuns(stale: seq<RunId>, answers: map<RunId, Answer>) returns (committed: bool, rescued: nat)
      requires IsListing(Stale(State()), STALE_LIMIT, stale)
      modifies `items, `chunks, `runs
      ensures committed <==> StaleSwept(old(State()), stale, answers).Rescue?
      ensures committed ==> Rescue(State(), rescued) == StaleSwept(old(State()), stale, answers)
      ensures !committed ==> State() == old(State()) && rescued == 0
    {
      var itemsBefore, runsBefore, chunksBefore := items, runs, chunks;
      ghost var before := State();
      assert forall run | run in stale :: run in Stale(before);
      ghost var whole := StaleSwept(before, stale, answers);
      rescued := 0;
      for i := 0 to |stale|
        invariant queue == before.queue && now == before.now
        invariant forall run | run in stale[i..] :: run in runs
        invariant whole == Prepended(rescued, StaleSwept(State(), stale[i..], answers))
      {
        assert stale[i..][0] == stale[i] && stale[i..][1..] == stale[i + 1..];
        ghost var here := State();
        var ok, n := RescueRun(stale[i], Ask(answers, stale[i]));
        if !ok {
          items, runs, chunks := itemsBefore, runsBefore, chunksBefore;
          return false, 0;
        }
        assert forall run | run in stale[i + 1..] :: run in stale[i..];
        rescued := rescued + n;
      }
      committed := true;
    }
  }

  /** What a tick still to come adds to the rescues counted so far. */
  ghost function Prepended(n: nat, rest: Rescue): Rescue {
    if rest.Aborted? then Aborted else Rescue(rest.store, n + rest.rescued)
  }
}
