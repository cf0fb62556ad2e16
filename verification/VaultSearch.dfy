/** The search over the vault the pipeline really builds: one chunk a memory, so its answer is the exact top-k. */
module VaultSearch {
  import opened Base
  import opened Rows
  import opened Lifecycle
  import P = Protocol
  import opened Sorting
  import opened SemanticSearch

  /** The pipeline writes index 0 and nothing else. */
  ghost predicate OneChunkEach(s: Store) {
    forall key | key in s.chunks :: key.1 == 0
  }

  lemma FinalizedChunks(s: Store, id: ItemId, payload: Payload, ai: AiReading)
    requires OneChunkEach(s)
    ensures OneChunkEach(Finalized(s, id, payload, ai).store)
  {
  }

  lemma RunFinalizedChunks(s: Store, run: RunId, a: Answer)
    requires OneChunkEach(s)
    ensures OneChunkEach(RunFinalized(s, run, a).store)
  {
    if run in s.runs && HasDataset(a) && Fetchable(s, s.runs[run].item, a) {
      FinalizedChunks(WithDataset(s, run, a.dataset.value), s.runs[run].item, a.payload.value, a.ai);
    }
  }

  lemma {:induction false} StaleSweptChunks(s: Store, stale: seq<RunId>, answers: map<RunId, Answer>)
    requires OneChunkEach(s) && forall run | run in stale :: run in s.runs
    ensures StaleSwept(s, stale, answers).Rescue? ==> OneChunkEach(StaleSwept(s, stale, answers).store)
    decreases |stale|
  {
    if stale != [] {
      var run, a := stale[0], Ask(answers, stale[0]);
      if HasDataset(a) && Fetchable(s, s.runs[run].item, a) {
        FinalizedChunks(WithDataset(s, run, a.dataset.value), s.runs[run].item, a.payload.value, a.ai);
      }
      if SweptRun(s, run, a).Rescue? {
        StaleSweptChunks(SweptRun(s, run, a).store, stale[1..], answers);
      }
    }
  }

  lemma {:induction false} PurgedRowsChunks(s: Store, rows: seq<ItemId>)
    requires OneChunkEach(s) && forall id | id in rows :: id in s.items
    ensures OneChunkEach(P.PurgedRows(s, rows))
  {
    if rows != [] {
      PurgedRowsChunks(s, rows[..|rows| - 1]);
    }
  }

  lemma DeliveredChunks(s: Store, index: nat, acked: bool, r: Readings, a: Answer)
    requires index < |s.queue| && OneChunkEach(s)
    ensures OneChunkEach(P.Delivered(s, index, acked, r, a))
  {
    var taken := if acked then s.(queue := s.queue[..index] + s.queue[index + 1..]) else s;
    match s.queue[index]
    case ProcessItem(id, _) => ProcessedChunks(taken, id, r);
    case FinalizeRun(run, _) => RunFinalizedChunks(taken, run, a);
  }

  lemma ProcessedChunks(s: Store, id: ItemId, r: Readings)
    requires OneChunkEach(s)
    ensures OneChunkEach(Processed(s, id, r).store)
  {
  }

  lemma StepKeepsOneChunk(s: Store, step: P.Step)
    requires P.Legal(s, step) && OneChunkEach(s)
    ensures OneChunkEach(P.Next(s, step))
  {
    match step
    case Deliver(index, acked, r, a) => DeliveredChunks(s, index, acked, r, a);
    case SweepStaleRuns(stale, answers) =>
      assert forall run | run in stale :: run in Stale(s);
      StaleSweptChunks(s, stale, answers);
    case PurgeExpired(rows) =>
      assert forall id | id in rows :: id in P.ExpiredTrash(s);
      PurgedRowsChunks(s, rows);
    case _ =>
  }

  lemma {:induction false} RunKeepsOneChunk(states: seq<Store>, steps: seq<P.Step>, i: nat)
    requires P.IsRun(states, steps) && OneChunkEach(states[0]) && i < |states|
    ensures OneChunkEach(states[i])
  {
    if i > 0 {
      RunKeepsOneChunk(states, steps, i - 1);
      StepKeepsOneChunk(states[i - 1], steps[i - 1]);
    }
  }

  /** The rows the search statement ranks: one per eligible chunk, in distance order. */
  ghost predicate IsScan(s: Store, keys: seq<(ItemId, nat)>, hits: seq<Hit>) {
    && |keys| == |hits| && Distinct(keys) && Sorted(hits, Nearer())
    && forall i | 0 <= i < |keys| :: keys[i] in s.chunks && keys[i].0 == hits[i].item
  }

  lemma {:induction false} OneHitEach(s: Store, keys: seq<(ItemId, nat)>, hits: seq<Hit>, item: ItemId)
    requires OneChunkEach(s) && |keys| == |hits| && Distinct(keys)
    requires forall i | 0 <= i < |keys| :: keys[i] in s.chunks && keys[i].0 == hits[i].item
    ensures Count(hits, item) <= 1
    ensures Count(hits, item) == 1 ==> (item, 0) in keys
  {
    if hits != [] {
      var n := |hits| - 1;
      OneHitEach(s, keys[..n], hits[..n], item);
      assert keys == keys[..n] + [keys[n]];
    }
  }

  /**
   In every run that starts with at most one chunk a memory, the scan meets the hypothesis of
   `SearchSemantic`, so the search names `min(limit, memories)` exact nearest memories.
   */
  lemma PipelineScansAreShallow(states: seq<Store>, steps: seq<P.Step>, i: nat,
                                keys: seq<(ItemId, nat)>, hits: seq<Hit>, limit: nat)
    requires P.IsRun(states, steps) && OneChunkEach(states[0]) && i < |states|
    requires IsScan(states[i], keys, hits)
    ensures forall item :: Count(hits, item) <= CHUNK_OVERSAMPLE
    ensures Min(limit, |ItemsOf(Take(hits, limit * CHUNK_OVERSAMPLE))|) == Min(limit, |ItemsOf(hits)|)
  {
    RunKeepsOneChunk(states, steps, i);
    forall item
      ensures Count(hits, item) <= CHUNK_OVERSAMPLE
    {
      OneHitEach(states[i], keys, hits, item);
    }
    OversampleSuffices(hits, limit);
  }
}
