/**
 The vault and its connections together.  Trash, restore and purge cut across the pipeline, both
 sweeps, derivation and hand-made connections; a run interleaves all of them.
 */
module System {
  import opened Base
  import opened Rows
  import opened Lifecycle
  import P = Protocol
  import opened Edges
  import C = ConnectionServices
  import H = EdgeHistory
  import D = Derivation

  datatype World = World(store: Store, graph: Graph)

  datatype Action =
    | Vault(step: P.Step)
    | Edit(edit: H.Action)
    | Derive(id: ItemId, input: D.RecallInput, answer: D.JudgeAnswer)

  /** The memories a step purges. */
  ghost function PurgedBy(s: Store, step: P.Step): set<ItemId> {
    match step
    case Purge(user, id) => if Restorable(s.items, user, id) then {id} else {}
    case PurgeExpired(rows) => set id | id in rows
    case _ => {}
  }

  function WithoutItems(edges: EdgeTable, gone: set<ItemId>): EdgeTable {
    map id | id in edges && edges[id].source !in gone && edges[id].target !in gone :: edges[id]
  }

  ghost predicate Legal(w: World, a: Action) {
    match a
    case Vault(step) => P.Legal(w.store, step)
    case Edit(edit) => !edit.Suggest? && !edit.PurgeItem?
    case Derive(id, input, _) => Live(w.store.items, id) ==> D.Recallable(w.store.items, id, input)
  }

  ghost function Next(w: World, a: Action): World
    requires Legal(w, a)
  {
    match a
    case Vault(step) =>
      World(P.Next(w.store, step), w.graph.(edges := WithoutItems(w.graph.edges, PurgedBy(w.store, step))))
    case Edit(edit) => w.(graph := H.Next(w.graph, H.Event(w.store.items, w.store.now, edit)))
    case Derive(id, input, answer) =>
      w.(graph := D.Derived(w.graph, w.store.items, id, input, answer, w.store.now))
  }

  ghost predicate IsRun(worlds: seq<World>, actions: seq<Action>) {
    && |worlds| == |actions| + 1
    && forall i | 0 <= i < |actions| :: Legal(worlds[i], actions[i]) && worlds[i + 1] == Next(worlds[i], actions[i])
  }

  // ---- what belongs to one memory ----

  ghost function ChunksOf(s: Store, id: ItemId): map<(ItemId, nat), Chunk> {
    map key | key in s.chunks && key.0 == id :: s.chunks[key]
  }

  ghost function EdgesAt(g: Graph, id: ItemId): EdgeTable {
    map e | e in g.edges && Touches(g.edges[e], id) :: g.edges[e]
  }

  ghost predicate Untouched(s: Store, t: Store, id: ItemId) {
    id in s.items && id in t.items && t.items[id] == s.items[id] && ChunksOf(t, id) == ChunksOf(s, id)
  }

  // ---- the pipeline never reaches a row with a tombstone ----

  lemma EnrichedElsewhere(s: Store, id: ItemId, item: Item, ai: AiReading, other: ItemId)
    requires other in s.items && other != id
    ensures Untouched(s, Enriched(s, id, item, ai).store, other)
  {
    var t := Enriched(s, id, item, ai).store;
    assert forall key | key != (id, 0) :: key in t.chunks <==> key in s.chunks;
  }

  lemma ProcessedElsewhere(s: Store, id: ItemId, r: Readings, other: ItemId)
    requires other in s.items && !Live(s.items, other)
    ensures Untouched(s, Processed(s, id, r).store, other)
  {
    if Live(s.items, id) {
      var item := s.items[id].(status := Processing, error := None);
      if Present(item.sourceUrl) && r.extraction.Extracted? {
        EnrichedElsewhere(s, id, item.(kind := r.extraction.kind, details := r.extraction.details), r.ai, other);
      } else if NeedsMedia(item) && r.media.ReadText? {
        EnrichedElsewhere(s, id, item.(details := item.details.(content := Some(r.media.content))), r.ai, other);
      } else {
        EnrichedElsewhere(s, id, item, r.ai, other);
      }
    }
  }

  lemma FinalizedElsewhere(s: Store, id: ItemId, payload: Payload, ai: AiReading, other: ItemId)
    requires other in s.items && !Live(s.items, other)
    ensures Untouched(s, Finalized(s, id, payload, ai).store, other)
  {
    if Live(s.items, id) && payload.Built? {
      EnrichedElsewhere(s, id, s.items[id].(kind := payload.kind, details := payload.details), ai, other);
    }
  }

  lemma RunFinalizedElsewhere(s: Store, run: RunId, a: Answer, other: ItemId)
    requires other in s.items && !Live(s.items, other)
    ensures Untouched(s, RunFinalized(s, run, a).store, other)
  {
    if run in s.runs && HasDataset(a) && Fetchable(s, s.runs[run].item, a) {
      var before := WithDataset(s, run, a.dataset.value);
      FinalizedElsewhere(before, s.runs[run].item, a.payload.value, a.ai, other);
      assert ChunksOf(before, other) == ChunksOf(s, other);
    }
  }

  lemma SweptRunElsewhere(s: Store, run: RunId, a: Answer, other: ItemId)
    requires run in s.runs && other in s.items && !Live(s.items, other)
    requires SweptRun(s, run, a).Rescue?
    ensures Untouched(s, SweptRun(s, run, a).store, other)
  {
    if HasDataset(a) && Fetchable(s, s.runs[run].item, a) {
      var before := WithDataset(s, run, a.dataset.value);
      FinalizedElsewhere(before, s.runs[run].item, a.payload.value, a.ai, other);
      assert ChunksOf(before, other) == ChunksOf(s, other);
    }
  }

  lemma {:induction false} StaleSweptElsewhere(s: Store, stale: seq<RunId>, answers: map<RunId, Answer>, other: ItemId)
    requires forall run | run in stale :: run in s.runs
    requires other in s.items && !Live(s.items, other) && StaleSwept(s, stale, answers).Rescue?
    ensures Untouched(s, StaleSwept(s, stale, answers).store, other)
    decreases |stale|
  {
    if stale != [] {
      SweptRunElsewhere(s, stale[0], Ask(answers, stale[0]), other);
      StaleSweptElsewhere(SweptRun(s, stale[0], Ask(answers, stale[0])).store, stale[1..], answers, other);
    }
  }

  lemma {:induction false} PurgedRowsElsewhere(s: Store, rows: seq<ItemId>, other: ItemId)
    requires forall id | id in rows :: id in s.items
    requires other in s.items && other !in rows
    ensures Untouched(s, P.PurgedRows(s, rows), other)
  {
    if rows != [] {
      PurgedRowsElsewhere(s, rows[..|rows| - 1], other);
      var before := P.PurgedRows(s, rows[..|rows| - 1]);
      var last := rows[|rows| - 1];
      assert ChunksOf(P.PurgedRow(before, last), other) == ChunksOf(before, other);
    }
  }

  /** Only a restore or a purge of that very row reaches a row with a tombstone. */
  lemma StepsSkipTombstones(s: Store, step: P.Step, id: ItemId)
    requires P.Legal(s, step) && id in s.items && !Live(s.items, id)
    requires !(step.Restore? && step.id == id) && id !in PurgedBy(s, step)
    ensures Untouched(s, P.Next(s, step), id)
  {
    match step
    case Deliver(index, acked, r, a) =>
      var taken := if acked then s.(queue := s.queue[..index] + s.queue[index + 1..]) else s;
      match s.queue[index] {
        case ProcessItem(other, _) => ProcessedElsewhere(taken, other, r, id);
        case FinalizeRun(run, _) => RunFinalizedElsewhere(taken, run, a, id);
      }
    case SweepStrandedItems(pending, _, processing) =>
      assert id in pending ==> id in Stranded(s, Pending, STUCK_PENDING_SECONDS);
      assert id in processing ==> id in Stranded(s, Processing, STUCK_PROCESSING_SECONDS);
    case SweepStaleRuns(stale, answers) =>
      assert forall run | run in stale :: run in Stale(s);
      if StaleSwept(s, stale, answers).Rescue? {
        StaleSweptElsewhere(s, stale, answers, id);
      }
    case PurgeExpired(rows) =>
      assert forall other | other in rows :: other in P.ExpiredTrash(s);
      PurgedRowsElsewhere(s, rows, id);
    case Purge(user, other) =>
      if Restorable(s.items, user, other) {
        assert ChunksOf(P.PurgedRow(s, other), id) == ChunksOf(s, id);
      }
    case _ =>
  }

  // ---- purge is final ----

  /** Scrubbed, tombstoned, and nothing derived from it is left. */
  ghost predicate Gone(w: World, id: ItemId) {
    && id in w.store.items
    && w.store.items[id].purgedAt.Some? && w.store.items[id].deletedAt.Some?
    && w.store.items[id].details == SCRUBBED && w.store.items[id].sourceUrl.None? && w.store.items[id].error.None?
    && (forall key | key in w.store.chunks :: key.0 != id)
    && (forall e | e in w.graph.edges :: !Touches(w.graph.edges[e], id))
  }

  /** The table is legal and every purged row is gone. */
  ghost predicate Inv(w: World) {
    && Valid(w.graph)
    && forall id | id in w.store.items && w.store.items[id].purgedAt.Some? :: Gone(w, id)
  }

  /** Every new row leaves `id` alone and no old row starts or stops touching it. */
  ghost predicate TouchesAsBefore(g: Graph, t: Graph, id: ItemId) {
    && (forall e | e in t.edges && e !in g.edges :: !Touches(t.edges[e], id))
    && (forall e | e in t.edges && e in g.edges :: Touches(t.edges[e], id) == Touches(g.edges[e], id))
  }

  lemma ConnectSkips(g: Graph, owner: UserId, s: ItemId, t: ItemId, relation: Relation, note: Option<string>,
      now: Time, id: ItemId)
    requires Valid(g) && s != id && t != id
    ensures TouchesAsBefore(g, Upserted(g, owner, s, t, relation, note, now), id)
  {
  }

  lemma RewriteSkips(g: Graph, k: EdgeId, e: Edge, id: ItemId)
    requires k in g.edges && HasPair(e, g.edges[k].owner, g.edges[k].source, g.edges[k].target)
    ensures TouchesAsBefore(g, g.(edges := g.edges[k := e]), id)
  {
  }

  lemma EditsSkipTombstones(g: Graph, e: H.Event, id: ItemId)
    requires Valid(g) && !e.action.Suggest? && !Live(e.items, id)
    ensures TouchesAsBefore(g, H.Next(g, e), id)
  {
    match e.action
    case Connect(user, source, target, relation, note) =>
      if source != target && Owns(e.items, user, source) && Owns(e.items, user, target) {
        var (s, t) := C.Oriented(source, target, relation);
        ConnectSkips(g, user, s, t, relation, C.CleanNote(note), e.now, id);
      }
    case Delete(_, _) =>
    case PurgeItem(_) =>
    case Update(_, k, _, _) => if H.Next(g, e) != g { RewriteSkips(g, k, H.Next(g, e).edges[k], id); }
    case Retype(_, k, _) => if H.Next(g, e) != g { RewriteSkips(g, k, H.Next(g, e).edges[k], id); }
    case Confirm(_, k) => if H.Next(g, e) != g { RewriteSkips(g, k, H.Next(g, e).edges[k], id); }
    case Dismiss(_, k) => if H.Next(g, e) != g { RewriteSkips(g, k, H.Next(g, e).edges[k], id); }
  }

  lemma DeriveSkipsTombstones(w: World, from: ItemId, input: D.RecallInput, answer: D.JudgeAnswer, id: ItemId)
    requires Legal(w, Derive(from, input, answer)) && Valid(w.graph) && !Live(w.store.items, id)
    ensures TouchesAsBefore(w.graph, Next(w, Derive(from, input, answer)).graph, id)
  {
    if Live(w.store.items, from) {
      var items := w.store.items;
      D.DeriveIsContained(w.graph, items, from, input, answer, w.store.now);
      var t := Next(w, Derive(from, input, answer)).graph;
      var found := D.RecalledFor(w.graph, items, from, input);
      forall e | e in t.edges && e !in w.graph.edges
        ensures !Touches(t.edges[e], id)
      {
        assert D.IsContained(t.edges[e], items, from, found);
      }
    }
  }

  lemma WritesNeverTouchTombstones(w: World, a: Action, id: ItemId)
    requires Legal(w, a) && !a.Vault? && Valid(w.graph) && !Live(w.store.items, id)
    ensures TouchesAsBefore(w.graph, Next(w, a).graph, id)
  {
    match a
    case Edit(edit) => EditsSkipTombstones(w.graph, H.Event(w.store.items, w.store.now, edit), id);
    case Derive(from, input, answer) => DeriveSkipsTombstones(w, from, input, answer, id);
  }

  lemma WritesKeepValid(w: World, a: Action)
    requires Legal(w, a) && Valid(w.graph)
    ensures Valid(Next(w, a).graph)
  {
    match a
    case Vault(step) =>
    case Edit(edit) => H.NextKeepsValid(w.graph, H.Event(w.store.items, w.store.now, edit));
    case Derive(id, input, answer) =>
      if Live(w.store.items, id) {
        D.DeriveIsContained(w.graph, w.store.items, id, input, answer, w.store.now);
      }
  }

  /** No step of the pipeline, of a sweep, of derivation, of a person or of a restore brings anything back. */
  lemma GoneStaysGone(w: World, a: Action, id: ItemId)
    requires Legal(w, a) && Valid(w.graph) && Gone(w, id)
    ensures Gone(Next(w, a), id) && Next(w, a).store.items[id] == w.store.items[id]
  {
    match a
    case Vault(step) =>
      if step.PurgeExpired? {
        assert forall other | other in step.rows :: other in P.ExpiredTrash(w.store);
      }
      if step.Restore? && step.id == id {
        assert P.Next(w.store, step) == w.store;
      } else {
        StepsSkipTombstones(w.store, step, id);
        NoChunks(w.store, P.Next(w.store, step), id);
      }
    case _ => WritesNeverTouchTombstones(w, a, id);
  }

  lemma NoChunks(s: Store, t: Store, id: ItemId)
    requires Untouched(s, t, id) && forall key | key in s.chunks :: key.0 != id
    ensures forall key | key in t.chunks :: key.0 != id
  {
    assert ChunksOf(s, id) == map[];
    assert forall key | key in t.chunks && key.0 == id :: key in ChunksOf(t, id);
  }

  lemma {:induction false} PurgedRowsAreScrubbed(s: Store, rows: seq<ItemId>, id: ItemId)
    requires (forall other | other in rows :: other in s.items) && Distinct(rows) && id in rows
    ensures P.PurgedRows(s, rows).items[id] == P.Scrubbed(s.items[id], s.now)
    ensures forall key | key in P.PurgedRows(s, rows).chunks :: key.0 != id
    ensures P.PurgedRows(s, rows).now == s.now
  {
    var front, last := rows[..|rows| - 1], rows[|rows| - 1];
    assert rows == front + [last];
    if id == last {
      PurgedRowsElsewhere(s, front, id);
      PurgedRowsClock(s, front);
    } else {
      PurgedRowsAreScrubbed(s, front, id);
    }
  }

  lemma {:induction false} PurgedRowsClock(s: Store, rows: seq<ItemId>)
    requires forall other | other in rows :: other in s.items
    ensures P.PurgedRows(s, rows).now == s.now
  {
    if rows != [] {
      PurgedRowsClock(s, rows[..|rows| - 1]);
    }
  }

  /** A purge, manual or by the beat task, leaves nothing of the row. */
  lemma PurgeLeavesNothing(w: World, step: P.Step, id: ItemId)
    requires P.Legal(w.store, step) && id in PurgedBy(w.store, step)
    ensures Gone(Next(w, Vault(step)), id)
  {
    if step.PurgeExpired? {
      assert forall other | other in step.rows :: other in P.ExpiredTrash(w.store);
      PurgedRowsAreScrubbed(w.store, step.rows, id);
    }
  }

  lemma RowsKeepPurgedAt(w: World, step: P.Step, id: ItemId)
    requires P.Legal(w.store, step) && id in P.Next(w.store, step).items
    requires P.Next(w.store, step).items[id].purgedAt.Some? && id !in PurgedBy(w.store, step)
    ensures id in w.store.items && w.store.items[id].purgedAt.Some?
  {
    if step.SweepStaleRuns? {
      assert forall run | run in step.stale :: run in Stale(w.store);
      if StaleSwept(w.store, step.stale, step.answers).Rescue? {
        StaleSweptKeepsPurgedAt(w.store, step.stale, step.answers, id);
      }
    } else if step.PurgeExpired? {
      assert forall other | other in step.rows :: other in P.ExpiredTrash(w.store);
      if id in w.store.items {
        PurgedRowsElsewhere(w.store, step.rows, id);
      }
    } else if step.Deliver? {
      var queue := w.store.queue;
      var taken := if step.acked then w.store.(queue := queue[..step.index] + queue[step.index + 1..]) else w.store;
      TaskKeepsPurgedAt(taken, w.store.queue[step.index], step.readings, step.answer, id);
    }
  }

  ghost predicate SamePurgedAt(s: Store, t: Store, id: ItemId) {
    (id in t.items <==> id in s.items) && (id in s.items ==> t.items[id].purgedAt == s.items[id].purgedAt)
  }

  lemma EnrichedKeepsPurgedAt(s: Store, id: ItemId, item: Item, ai: AiReading, other: ItemId)
    requires id in s.items && item.purgedAt == s.items[id].purgedAt
    ensures SamePurgedAt(s, Enriched(s, id, item, ai).store, other)
  {
  }

  lemma FinalizedKeepsPurgedAt(s: Store, id: ItemId, payload: Payload, ai: AiReading, other: ItemId)
    ensures SamePurgedAt(s, Finalized(s, id, payload, ai).store, other)
  {
    if Live(s.items, id) && payload.Built? {
      EnrichedKeepsPurgedAt(s, id, s.items[id].(kind := payload.kind, details := payload.details), ai, other);
    }
  }

  lemma ProcessedKeepsPurgedAt(s: Store, id: ItemId, r: Readings, other: ItemId)
    ensures SamePurgedAt(s, Processed(s, id, r).store, other)
  {
    if Live(s.items, id) {
      var item := s.items[id].(status := Processing, error := None);
      if Present(item.sourceUrl) && r.extraction.Extracted? {
        EnrichedKeepsPurgedAt(s, id, item.(kind := r.extraction.kind, details := r.extraction.details), r.ai, other);
      } else if NeedsMedia(item) && r.media.ReadText? {
        EnrichedKeepsPurgedAt(s, id, item.(details := item.details.(content := Some(r.media.content))), r.ai, other);
      } else {
        EnrichedKeepsPurgedAt(s, id, item, r.ai, other);
      }
    }
  }

  lemma RunFinalizedKeepsPurgedAt(s: Store, run: RunId, a: Answer, other: ItemId)
    ensures SamePurgedAt(s, RunFinalized(s, run, a).store, other)
  {
    if run in s.runs && HasDataset(a) && Fetchable(s, s.runs[run].item, a) {
      FinalizedKeepsPurgedAt(WithDataset(s, run, a.dataset.value), s.runs[run].item, a.payload.value, a.ai, other);
    }
  }

  lemma TaskKeepsPurgedAt(s: Store, message: Message, r: Readings, a: Answer, other: ItemId)
    ensures SamePurgedAt(s, P.RunTask(s, message, r, a).store, other)
  {
    match message
    case ProcessItem(id, _) => ProcessedKeepsPurgedAt(s, id, r, other);
    case FinalizeRun(run, _) => RunFinalizedKeepsPurgedAt(s, run, a, other);
  }

  lemma {:induction false} StaleSweptKeepsPurgedAt(s: Store, stale: seq<RunId>, answers: map<RunId, Answer>,
      other: ItemId)
    requires (forall run | run in stale :: run in s.runs) && StaleSwept(s, stale, answers).Rescue?
    ensures SamePurgedAt(s, StaleSwept(s, stale, answers).store, other)
    decreases |stale|
  {
    if stale != [] {
      var run, a := stale[0], Ask(answers, stale[0]);
      if HasDataset(a) && Fetchable(s, s.runs[run].item, a) {
        FinalizedKeepsPurgedAt(WithDataset(s, run, a.dataset.value), s.runs[run].item, a.payload.value, a.ai, other);
      }
      StaleSweptKeepsPurgedAt(SweptRun(s, run, a).store, stale[1..], answers, other);
    }
  }

  lemma InvStep(w: World, a: Action)
    requires Legal(w, a) && Inv(w)
    ensures Inv(Next(w, a))
  {
    WritesKeepValid(w, a);
    forall id | id in Next(w, a).store.items && Next(w, a).store.items[id].purgedAt.Some?
      ensures Gone(Next(w, a), id)
    {
      if a.Vault? && id in PurgedBy(w.store, a.step) {
        PurgeLeavesNothing(w, a.step, id);
      } else {
        if a.Vault? {
          RowsKeepPurgedAt(w, a.step, id);
        }
        GoneStaysGone(w, a, id);
      }
    }
  }

  lemma {:induction false} InvOverRun(worlds: seq<World>, actions: seq<Action>, i: nat)
    requires IsRun(worlds, actions) && Inv(worlds[0]) && i < |worlds|
    ensures Inv(worlds[i])
  {
    if i > 0 {
      InvOverRun(worlds, actions, i - 1);
      InvStep(worlds[i - 1], actions[i - 1]);
    }
  }

  lemma {:induction false} GoneForGood(worlds: seq<World>, actions: seq<Action>, id: ItemId, i: nat, j: nat)
    requires IsRun(worlds, actions) && i <= j < |worlds|
    requires Gone(worlds[i], id) && forall n | 0 <= n < |worlds| :: Valid(worlds[n].graph)
    ensures Gone(worlds[j], id) && worlds[j].store.items[id] == worlds[i].store.items[id]
    decreases j
  {
    if i < j {
      GoneForGood(worlds, actions, id, i, j - 1);
      var w, a := worlds[j - 1], actions[j - 1];
      GoneStaysGone(w, a, id);
      assert worlds[j - 1 + 1] == Next(w, a);
    }
  }

  /** In every run, a purged memory stays exactly the tombstone it is: no words, no chunk, no connection. */
  lemma PurgeIsFinal(worlds: seq<World>, actions: seq<Action>, id: ItemId, i: nat, j: nat)
    requires IsRun(worlds, actions) && Inv(worlds[0]) && i <= j < |worlds|
    requires id in worlds[i].store.items && worlds[i].store.items[id].purgedAt.Some?
    ensures Gone(worlds[j], id) && worlds[j].store.items[id] == worlds[i].store.items[id]
  {
    forall n | 0 <= n < |worlds|
      ensures Inv(worlds[n])
    {
      InvOverRun(worlds, actions, n);
    }
    GoneForGood(worlds, actions, id, i, j);
  }

  // ---- trash is reversible ----

  /**
   An edit by id that does change an edge of this memory.  One that is refused, rolled back or says
   nothing new is not among them, and neither is a retype: it is refused while the memory is trashed.
   */
  ghost predicate EditsEdgeOf(g: Graph, e: H.Event, id: ItemId) {
    var edit := e.action;
    && (edit.Update? || edit.Confirm? || edit.Dismiss? || edit.Delete?)
    && edit.id in g.edges && Touches(g.edges[edit.id], id)
    && (edit.id in H.Next(g, e).edges ==> H.Next(g, e).edges[edit.id] != g.edges[edit.id])
  }

  /** The memory itself or the other end of one of its edges is purged. */
  ghost predicate PurgesNear(w: World, step: P.Step, id: ItemId) {
    exists other ::
      && other in PurgedBy(w.store, step)
      && (other == id || exists e | e in w.graph.edges :: HasEnds(w.graph.edges[e], id, other))
  }

  predicate HasEnds(e: Edge, a: ItemId, b: ItemId) {
    Touches(e, a) && Touches(e, b)
  }

  /** What a restore cannot be asked to undo, and the restore itself. */
  ghost predicate Disturbs(w: World, a: Action, id: ItemId) {
    match a
    case Vault(step) => (step.Restore? && step.id == id) || PurgesNear(w, step, id)
    case Edit(edit) => EditsEdgeOf(w.graph, H.Event(w.store.items, w.store.now, edit), id)
    case Derive(_, _, _) => false
  }

  ghost predicate SameFootprint(w: World, v: World, id: ItemId) {
    Untouched(w.store, v.store, id) && EdgesAt(v.graph, id) == EdgesAt(w.graph, id)
  }

  lemma EditKeepsEdgesAt(g: Graph, e: H.Event, id: ItemId)
    requires Valid(g) && !e.action.Suggest? && !e.action.PurgeItem? && !Live(e.items, id) && !EditsEdgeOf(g, e, id)
    ensures EdgesAt(H.Next(g, e), id) == EdgesAt(g, id)
  {
    EditsSkipTombstones(g, e, id);
    var t := H.Next(g, e);
    forall k | k in g.edges && Touches(g.edges[k], id)
      ensures k in t.edges && t.edges[k] == g.edges[k]
    {
    }
  }

  lemma AddedElsewhere(g: Graph, t: Graph, id: ItemId)
    requires forall e | e in g.edges :: e in t.edges && t.edges[e] == g.edges[e]
    requires TouchesAsBefore(g, t, id)
    ensures EdgesAt(t, id) == EdgesAt(g, id)
  {
  }

  lemma DeriveOnlyAdds(w: World, from: ItemId, input: D.RecallInput, answer: D.JudgeAnswer)
    requires Legal(w, Derive(from, input, answer)) && Valid(w.graph)
    ensures var t := Next(w, Derive(from, input, answer)).graph;
            forall e | e in w.graph.edges :: e in t.edges && t.edges[e] == w.graph.edges[e]
  {
    if Live(w.store.items, from) {
      D.DeriveIsContained(w.graph, w.store.items, from, input, answer, w.store.now);
    }
  }

  lemma DeriveKeepsEdgesAt(w: World, from: ItemId, input: D.RecallInput, answer: D.JudgeAnswer, id: ItemId)
    requires Legal(w, Derive(from, input, answer)) && Valid(w.graph) && !Live(w.store.items, id)
    ensures EdgesAt(Next(w, Derive(from, input, answer)).graph, id) == EdgesAt(w.graph, id)
  {
    DeriveSkipsTombstones(w, from, input, answer, id);
    DeriveOnlyAdds(w, from, input, answer);
    AddedElsewhere(w.graph, Next(w, Derive(from, input, answer)).graph, id);
  }

  lemma PurgeElsewhereKeepsEdgesAt(w: World, step: P.Step, id: ItemId)
    requires !PurgesNear(w, step, id)
    ensures EdgesAt(w.graph.(edges := WithoutItems(w.graph.edges, PurgedBy(w.store, step))), id) == EdgesAt(w.graph, id)
  {
    forall e | e in w.graph.edges && Touches(w.graph.edges[e], id)
      ensures w.graph.edges[e].source !in PurgedBy(w.store, step) && w.graph.edges[e].target !in PurgedBy(w.store, step)
    {
      assert HasEnds(w.graph.edges[e], id, w.graph.edges[e].source);
      assert HasEnds(w.graph.edges[e], id, w.graph.edges[e].target);
    }
  }

  lemma TrashIsLeftAlone(w: World, a: Action, id: ItemId)
    requires Legal(w, a) && Valid(w.graph) && !Disturbs(w, a, id)
    requires id in w.store.items && !Live(w.store.items, id)
    ensures SameFootprint(w, Next(w, a), id)
  {
    match a
    case Vault(step) =>
      StepsSkipTombstones(w.store, step, id);
      PurgeElsewhereKeepsEdgesAt(w, step, id);
    case Edit(edit) => EditKeepsEdgesAt(w.graph, H.Event(w.store.items, w.store.now, edit), id);
    case Derive(from, input, answer) => DeriveKeepsEdgesAt(w, from, input, answer, id);
  }

  lemma {:induction false} TrashKeepsFootprint(worlds: seq<World>, actions: seq<Action>, id: ItemId, i: nat)
    requires IsRun(worlds, actions) && Valid(worlds[0].graph) && i < |worlds|
    requires id in worlds[0].store.items && !Live(worlds[0].store.items, id)
    requires forall k | 0 <= k < i :: !Disturbs(worlds[k], actions[k], id)
    ensures SameFootprint(worlds[0], worlds[i], id) && Valid(worlds[i].graph)
  {
    if i > 0 {
      TrashKeepsFootprint(worlds, actions, id, i - 1);
      TrashIsLeftAlone(worlds[i - 1], actions[i - 1], id);
      WritesKeepValid(worlds[i - 1], actions[i - 1]);
    }
  }

  /**
   Trash a memory, let everything else go on (captures, sweeps and derivations of other memories,
   hand-made connections, retypes, purges elsewhere), then restore it: the row, its chunks and its
   connections are what they were, apart from the time of the last write.
   */
  lemma TrashThenRestore(start: World, worlds: seq<World>, actions: seq<Action>, user: UserId, id: ItemId)
    requires Valid(start.graph) && Owns(start.store.items, user, id) && start.store.items[id].purgedAt.None?
    requires IsRun(worlds, actions) && worlds[0] == Next(start, Vault(P.Trash(user, id)))
    requires forall k | 0 <= k < |actions| :: !Disturbs(worlds[k], actions[k], id)
    ensures var end := Next(worlds[|actions|], Vault(P.Restore(user, id)));
            && Owns(end.store.items, user, id)
            && end.store.items[id] == start.store.items[id].(updatedAt := end.store.items[id].updatedAt)
            && ChunksOf(end.store, id) == ChunksOf(start.store, id)
            && EdgesAt(end.graph, id) == EdgesAt(start.graph, id)
  {
    assert worlds[0].graph.edges == start.graph.edges;
    TrashKeepsFootprint(worlds, actions, id, |actions|);
    var last := worlds[|actions|];
    var end := Next(last, Vault(P.Restore(user, id)));
    assert end.graph.edges == last.graph.edges;
  }
}
