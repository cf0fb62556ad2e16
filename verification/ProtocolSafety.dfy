/** Safety of the capture protocol over every interleaving of its steps. */
module ProtocolSafety {
  import opened Base
  import opened Rows
  import opened Lifecycle
  import opened Protocol

  /** The steps a worker or a beat sweep takes on deferred runs, as opposed to a fresh `process`. */
  predicate IsRunStep(s: Store, step: Step) {
    || (step.Deliver? && step.index < |s.queue| && s.queue[step.index].FinalizeRun?)
    || step.SweepStaleRuns? || step.SweepStrandedItems?
  }

  ghost predicate RunOver(s: Store, run: RunId) {
    run in s.runs && !s.runs[run].status.Running?
  }

  ghost predicate Verdict(s: Store, id: ItemId) {
    Live(s.items, id) ==> s.items[id].status.Completed? || s.items[id].status.Failed?
  }

  // ---- one task body ----

  lemma FinalizedVerdict(s: Store, id: ItemId, payload: Payload, ai: AiReading)
    ensures Verdict(Finalized(s, id, payload, ai).store, id)
    ensures Finalized(s, id, payload, ai).store.runs == s.runs
    ensures forall other :: other in s.items && (other != id || s.items[other].status.Completed?) ==>
              other in Finalized(s, id, payload, ai).store.items
              && Finalized(s, id, payload, ai).store.items[other] == s.items[other]
  {
  }

  lemma SweptRunKeeps(s: Store, run: RunId, a: Answer)
    requires run in s.runs && SweptRun(s, run, a).Rescue?
    ensures var t := SweptRun(s, run, a).store;
            && (forall other | other in s.runs && other != run :: other in t.runs && t.runs[other] == s.runs[other])
            && run in t.runs && t.runs[run].item == s.runs[run].item
            && (RunOver(t, run) && !RunOver(s, run) ==> Verdict(t, s.runs[run].item))
            && (forall id | id in s.items :: Verdict(s, id) ==> Verdict(t, id))
            && (forall id | id in s.items && s.items[id].status.Completed? ::
                id in t.items && t.items[id] == s.items[id])
            && t.items.Keys == s.items.Keys
  {
    var id := s.runs[run].item;
    if HasDataset(a) && Fetchable(s, id, a) {
      FinalizedVerdict(WithDataset(s, run, a.dataset.value), id, a.payload.value, a.ai);
    }
  }

  lemma {:induction false} StaleSweptKeeps(s: Store, stale: seq<RunId>, answers: map<RunId, Answer>)
    requires forall run | run in stale :: run in s.runs
    requires StaleSwept(s, stale, answers).Rescue?
    ensures var t := StaleSwept(s, stale, answers).store;
            && t.items.Keys == s.items.Keys && t.runs.Keys == s.runs.Keys
            && (forall run | run in s.runs && run !in stale :: t.runs[run] == s.runs[run])
            && (forall run | run in s.runs :: t.runs[run].item == s.runs[run].item)
            && (forall id | id in s.items :: Verdict(s, id) ==> Verdict(t, id))
            && (forall run | run in s.runs && !RunOver(s, run) && RunOver(t, run) :: Verdict(t, s.runs[run].item))
            && (forall id | id in s.items && s.items[id].status.Completed? :: t.items[id] == s.items[id])
    decreases |stale|
  {
    if stale != [] {
      SweptRunKeeps(s, stale[0], Ask(answers, stale[0]));
      StaleSweptKeeps(SweptRun(s, stale[0], Ask(answers, stale[0])).store, stale[1..], answers);
    }
  }

  // ---- one step ----

  /** A purge of several rows touches only rows that carry a tombstone already. */
  lemma {:induction false} PurgedRowsKeep(s: Store, rows: seq<ItemId>)
    requires forall id | id in rows :: id in s.items && s.items[id].deletedAt.Some?
    ensures var t := PurgedRows(s, rows);
            && t.runs == s.runs && t.queue == s.queue && t.now == s.now
            && (forall id | id in s.items :: id !in rows ==> t.items[id] == s.items[id])
            && (forall id | id in rows :: t.items[id].deletedAt.Some?)
  {
    if rows != [] {
      PurgedRowsKeep(s, rows[..|rows| - 1]);
      assert rows == rows[..|rows| - 1] + [rows[|rows| - 1]];
    }
  }

  lemma ProcessedRuns(s: Store, id: ItemId, r: Readings)
    ensures var t := Processed(s, id, r).store;
            t.runs == s.runs
            || (r.extraction.Deferred? && r.extraction.run !in s.runs
                && t.runs == s.runs[r.extraction.run := Run(id, Running, None, None, s.now, None)])
  {
  }

  lemma RunFinalizedRuns(s: Store, run: RunId, a: Answer)
    ensures var t := RunFinalized(s, run, a).store;
            && t.runs.Keys == s.runs.Keys
            && (forall r | r in s.runs && (r != run || RunOver(s, r)) :: t.runs[r] == s.runs[r])
            && (!RunOver(s, run) && RunOver(t, run) ==> run in s.runs && Verdict(t, s.runs[run].item))
  {
    if run in s.runs && HasDataset(a) && Fetchable(s, s.runs[run].item, a) {
      FinalizedVerdict(WithDataset(s, run, a.dataset.value), s.runs[run].item, a.payload.value, a.ai);
    }
  }

  lemma DeliveredRuns(s: Store, index: nat, acked: bool, r: Readings, a: Answer, run: RunId)
    requires index < |s.queue| && run in s.runs
    ensures var t := Delivered(s, index, acked, r, a);
            && run in t.runs
            && (RunOver(s, run) ==> t.runs[run] == s.runs[run])
            && (!RunOver(s, run) && RunOver(t, run) ==>
                  s.queue[index].FinalizeRun? && Verdict(t, s.runs[run].item))
  {
    var taken := if acked then s.(queue := s.queue[..index] + s.queue[index + 1..]) else s;
    match s.queue[index]
    case ProcessItem(id, _) => ProcessedRuns(taken, id, r);
    case FinalizeRun(ended, _) => RunFinalizedRuns(taken, ended, a);
  }

  /** A run that is over never changes again. */
  lemma OverStaysOver(s: Store, step: Step, run: RunId)
    requires Legal(s, step) && RunOver(s, run)
    ensures run in Next(s, step).runs && Next(s, step).runs[run] == s.runs[run]
  {
    if step.Deliver? {
      DeliveredRuns(s, step.index, step.acked, step.readings, step.answer, run);
    } else if step.SweepStaleRuns? {
      assert forall r | r in step.stale :: r in Stale(s);
      if !StaleSwept(s, step.stale, step.answers).Aborted? {
        StaleSweptKeeps(s, step.stale, step.answers);
      }
    } else if step.PurgeExpired? {
      assert forall id | id in step.rows :: id in ExpiredTrash(s);
      PurgedRowsKeep(s, step.rows);
    }
  }

  /** Only a run step ends a run, and it leaves the run's item with a verdict. */
  lemma LeavingRunGivesVerdict(s: Store, step: Step, run: RunId)
    requires Legal(s, step)
    requires run in s.runs && !RunOver(s, run) && RunOver(Next(s, step), run)
    ensures IsRunStep(s, step) && Verdict(Next(s, step), s.runs[run].item)
  {
    if step.Deliver? {
      DeliveredRuns(s, step.index, step.acked, step.readings, step.answer, run);
    } else if step.SweepStaleRuns? {
      assert forall r | r in step.stale :: r in Stale(s);
      if !StaleSwept(s, step.stale, step.answers).Aborted? {
        StaleSweptKeeps(s, step.stale, step.answers);
      }
    } else if step.PurgeExpired? {
      assert forall id | id in step.rows :: id in ExpiredTrash(s);
      PurgedRowsKeep(s, step.rows);
    }
  }

  lemma RunFinalizedKeepsCompleted(s: Store, run: RunId, a: Answer, id: ItemId)
    requires id in s.items && s.items[id].status.Completed?
    ensures id in RunFinalized(s, run, a).store.items && RunFinalized(s, run, a).store.items[id] == s.items[id]
  {
    if run in s.runs && HasDataset(a) && Fetchable(s, s.runs[run].item, a) {
      FinalizedVerdict(WithDataset(s, run, a.dataset.value), s.runs[run].item, a.payload.value, a.ai);
    }
  }

  lemma StrandedSweepKeepsCompleted(s: Store, pending: seq<ItemId>, accepted: set<ItemId>, processing: seq<ItemId>,
                                    id: ItemId)
    requires Legal(s, SweepStrandedItems(pending, accepted, processing))
    requires id in s.items && s.items[id].status.Completed?
    ensures var t := StrandedSwept(s, pending, accepted, processing); id in t.items && t.items[id] == s.items[id]
  {
    assert id in pending ==> id in Stranded(s, Pending, STUCK_PENDING_SECONDS);
    assert id in processing ==> id in Stranded(s, Processing, STUCK_PROCESSING_SECONDS);
  }

  lemma TickKeepsCompleted(s: Store, stale: seq<RunId>, answers: map<RunId, Answer>, id: ItemId)
    requires Legal(s, SweepStaleRuns(stale, answers))
    requires id in s.items && s.items[id].status.Completed?
    ensures var t := Next(s, SweepStaleRuns(stale, answers)); id in t.items && t.items[id] == s.items[id]
  {
    assert forall r | r in stale :: r in Stale(s);
    if !StaleSwept(s, stale, answers).Aborted? {
      StaleSweptKeeps(s, stale, answers);
    }
  }

  /** No finalize, `fail_item` or sweep ever changes a completed memory. */
  lemma RunStepsKeepCompleted(s: Store, step: Step, id: ItemId)
    requires Legal(s, step) && IsRunStep(s, step)
    requires id in s.items && s.items[id].status.Completed?
    ensures id in Next(s, step).items && Next(s, step).items[id] == s.items[id]
  {
    match step
    case SweepStaleRuns(stale, answers) => TickKeepsCompleted(s, stale, answers, id);
    case SweepStrandedItems(pending, accepted, processing) =>
      StrandedSweepKeepsCompleted(s, pending, accepted, processing, id);
    case Deliver(index, acked, _, a) =>
      var taken := if acked then s.(queue := s.queue[..index] + s.queue[index + 1..]) else s;
      RunFinalizedKeepsCompleted(taken, s.queue[index].run, a, id);
  }

  // ---- whole runs ----

  lemma {:induction false} OverForGood(states: seq<Store>, steps: seq<Step>, run: RunId, i: nat, j: nat)
    requires IsRun(states, steps) && i <= j < |states| && RunOver(states[i], run)
    ensures RunOver(states[j], run) && states[j].runs[run] == states[i].runs[run]
    decreases j
  {
    if i < j {
      OverForGood(states, steps, run, i, j - 1);
      OverStaysOver(states[j - 1], steps[j - 1], run);
    }
  }

  ghost predicate Leaves(states: seq<Store>, run: RunId, i: nat)
    requires i + 1 < |states|
  {
    run in states[i].runs && !RunOver(states[i], run) && RunOver(states[i + 1], run)
  }

  ghost predicate CompletedUnchanged(states: seq<Store>, i: nat)
    requires i + 1 < |states|
  {
    forall id | id in states[i].items && states[i].items[id].status.Completed? ::
      id in states[i + 1].items && states[i + 1].items[id] == states[i].items[id]
  }

  /**
   Over every interleaving of deliveries, redeliveries, callbacks, sweeps and user actions: a run
   leaves `running` at most once, that step settles its memory if it is still live, and no
   step that works on runs changes a completed memory.
   */
  lemma RunSafety(states: seq<Store>, steps: seq<Step>)
    requires IsRun(states, steps)
    ensures forall run, i, j | 0 <= i < |steps| && 0 <= j < |steps| && Leaves(states, run, i)
            && Leaves(states, run, j) :: i == j
    ensures forall run, i | 0 <= i < |steps| && Leaves(states, run, i) ::
              IsRunStep(states[i], steps[i]) && Verdict(states[i + 1], states[i].runs[run].item)
    ensures forall i | 0 <= i < |steps| :: IsRunStep(states[i], steps[i]) ==> CompletedUnchanged(states, i)
  {
    forall run, i, j | 0 <= i < |steps| && 0 <= j < |steps| && Leaves(states, run, i) && Leaves(states, run, j)
      ensures i == j
    {
      if i < j {
        OverForGood(states, steps, run, i + 1, j);
      } else if j < i {
        OverForGood(states, steps, run, j + 1, i);
      }
    }
    forall run, i | 0 <= i < |steps| && Leaves(states, run, i)
      ensures IsRunStep(states[i], steps[i]) && Verdict(states[i + 1], states[i].runs[run].item)
    {
      LeavingRunGivesVerdict(states[i], steps[i], run);
    }
    forall i | 0 <= i < |steps| && IsRunStep(states[i], steps[i])
      ensures CompletedUnchanged(states, i)
    {
      forall id | id in states[i].items && states[i].items[id].status.Completed?
        ensures id in states[i + 1].items && states[i + 1].items[id] == states[i].items[id]
      {
        RunStepsKeepCompleted(states[i], steps[i], id);
      }
    }
  }

  // ---- the tick that cannot commit ----

  /** Enrichment of this payload returns: readable text and every model call answered, or a permanent refusal. */
  predicate Returns(payload: Payload, ai: AiReading) {
    match payload
    case BuildFailed(fault) => fault.permanent
    case Built(_, _) => Completes(payload, ai)
  }

  predicate Completes(payload: Payload, ai: AiReading) {
    && payload.Built?
    && ((Present(payload.details.content) && !Blank(payload.details.content.value))
        || (!Present(payload.details.content) && Present(payload.details.title) && !Blank(payload.details.title.value)))
    && ai.AiRead? && ai.vector.Ok?
  }

  predicate Terminal(a: Answer) {
    a.Answer? && a.status != "READY" && a.status != "RUNNING"
  }

  /** The i-th listed run can be rescued without raising, judged before the tick starts. */
  predicate Rescuable(s: Store, stale: seq<RunId>, answers: map<RunId, Answer>, i: nat)
    requires i < |stale| && forall run | run in stale :: run in s.runs
  {
    var a := Ask(answers, stale[i]);
    var id := s.runs[stale[i]].item;
    HasDataset(a) ==>
      && Fetchable(s, id, a)
      && (|| s.items[id].status.Completed?
          || Returns(a.payload.value, a.ai)
          || exists j | 0 <= j < i :: CompletesFor(s, stale[j], Ask(answers, stale[j]), id))
  }

  predicate CompletesFor(s: Store, run: RunId, a: Answer, id: ItemId)
    requires run in s.runs
  {
    s.runs[run].item == id && HasDataset(a) && a.payload.Some? && Completes(a.payload.value, a.ai)
  }

  lemma RescueReturnsIff(s: Store, run: RunId, a: Answer)
    requires run in s.runs
    ensures SweptRun(s, run, a).Rescue? <==>
              !HasDataset(a)
              || (Fetchable(s, s.runs[run].item, a)
                  && (s.items[s.runs[run].item].status.Completed? || Returns(a.payload.value, a.ai)))
  {
    var id := s.runs[run].item;
    if HasDataset(a) && Fetchable(s, id, a) {
      FinalizedOutcome(WithDataset(s, run, a.dataset.value), id, a.payload.value, a.ai);
    }
  }

  /** How one rescue shifts what the rest of the tick sees. */
  lemma RescueShifts(s: Store, run: RunId, a: Answer)
    requires run in s.runs
    ensures SweptRun(s, run, a).Rescue? <==>
              !HasDataset(a)
              || (Fetchable(s, s.runs[run].item, a)
                  && (s.items[s.runs[run].item].status.Completed? || Returns(a.payload.value, a.ai)))
    ensures SweptRun(s, run, a).Rescue? ==>
              var t := SweptRun(s, run, a).store;
              && t.items.Keys == s.items.Keys && t.runs.Keys == s.runs.Keys
              && (forall r | r in s.runs :: t.runs[r].item == s.runs[r].item)
              && (forall id | id in s.items ::
                    && t.items[id].deletedAt == s.items[id].deletedAt
                    && t.items[id].sourceUrl == s.items[id].sourceUrl
                    && (t.items[id].status.Completed? <==>
                        s.items[id].status.Completed? || CompletesFor(s, run, a, id)))
  {
    RescueReturnsIff(s, run, a);
    var id := s.runs[run].item;
    if HasDataset(a) && Fetchable(s, id, a) {
      var before := WithDataset(s, run, a.dataset.value);
      FinalizedOutcome(before, id, a.payload.value, a.ai);
    }
  }

  lemma FinalizedOutcome(s: Store, id: ItemId, payload: Payload, ai: AiReading)
    requires Live(s.items, id)
    ensures var done := Finalized(s, id, payload, ai);
            && (done.raised <==> !(s.items[id].status.Completed? || Returns(payload, ai)))
            && done.store.items.Keys == s.items.Keys && done.store.runs == s.runs
            && (done.store.items[id].status.Completed? <==> s.items[id].status.Completed? || Completes(payload, ai))
            && done.store.items[id].deletedAt == s.items[id].deletedAt
            && done.store.items[id].sourceUrl == s.items[id].sourceUrl
  {
  }

  /**
   A stale tick commits exactly when every listed run the provider has data for still has a live
   memory with a source, and finishing it returns (or an earlier run of the tick completed it).
   */
  lemma {:induction false} TickCommitsIff(s: Store, stale: seq<RunId>, answers: map<RunId, Answer>)
    requires forall run | run in stale :: run in s.runs
    ensures StaleSwept(s, stale, answers).Rescue? <==>
            forall i | 0 <= i < |stale| :: Rescuable(s, stale, answers, i)
    decreases |stale|
  {
    if stale != [] {
      var run, a := stale[0], Ask(answers, stale[0]);
      RescueShifts(s, run, a);
      assert Rescuable(s, stale, answers, 0) <==> SweptRun(s, run, a).Rescue?;
      if SweptRun(s, run, a).Rescue? {
        var t := SweptRun(s, run, a).store;
        TickCommitsIff(t, stale[1..], answers);
        forall i | 0 < i < |stale|
          ensures Rescuable(s, stale, answers, i) <==> Rescuable(t, stale[1..], answers, i - 1)
        {
          RescuableShifts(s, t, stale, answers, i);
        }
        assert forall i | 0 <= i < |stale| - 1 :: Rescuable(s, stale, answers, i + 1) <==>
            Rescuable(t, stale[1..], answers, i);
        assert forall i | 0 < i < |stale| :: Rescuable(t, stale[1..], answers, i - 1) ==>
            Rescuable(s, stale, answers, i);
      }
    }
  }

  lemma RescuableShifts(s: Store, t: Store, stale: seq<RunId>, answers: map<RunId, Answer>, i: nat)
    requires 0 < i < |stale| && forall run | run in stale :: run in s.runs
    requires SweptRun(s, stale[0], Ask(answers, stale[0])) .Rescue?
    requires t == SweptRun(s, stale[0], Ask(answers, stale[0])).store
    requires forall run | run in stale[1..] :: run in t.runs
    ensures Rescuable(s, stale, answers, i) <==> Rescuable(t, stale[1..], answers, i - 1)
  {
    RescueShifts(s, stale[0], Ask(answers, stale[0]));
    var rest := stale[1..];
    var id := s.runs[stale[i]].item;
    if j :| 0 <= j < i && CompletesFor(s, stale[j], Ask(answers, stale[j]), id) {
      if j > 0 {
        assert CompletesFor(t, rest[j - 1], Ask(answers, rest[j - 1]), id);
      }
    }
    if j :| 0 <= j < i - 1 && CompletesFor(t, rest[j], Ask(answers, rest[j]), id) {
      assert CompletesFor(s, stale[j + 1], Ask(answers, stale[j + 1]), id);
    }
  }

  /**
   One run whose memory is in the trash, and whose data the provider has, keeps every tick that
   lists it from committing: nothing changes, however many other runs the tick could rescue.
   */
  lemma TrashedRunBlocksTheTick(s: Store, stale: seq<RunId>, answers: map<RunId, Answer>, run: RunId)
    requires IsListing(Stale(s), STALE_LIMIT, stale)
    requires run in stale && HasDataset(Ask(answers, run)) && !Live(s.items, s.runs[run].item)
    ensures Next(s, SweepStaleRuns(stale, answers)) == s
  {
    assert forall r | r in stale :: r in Stale(s);
    var i :| 0 <= i < |stale| && stale[i] == run;
    TickCommitsIff(s, stale, answers);
    assert !Rescuable(s, stale, answers, i);
  }

  /** Every answer this step is given about `run` says its data is ready. */
  predicate DataReady(s: Store, step: Step, run: RunId) {
    match step
    case Deliver(index, _, _, a) =>
      index < |s.queue| && s.queue[index].FinalizeRun? && s.queue[index].run == run ==> HasDataset(a)
    case SweepStaleRuns(_, answers) => HasDataset(Ask(answers, run))
    case _ => true
  }

  lemma TrashedRunSurvivesDelivery(s: Store, index: nat, acked: bool, r: Readings, a: Answer, run: RunId)
    requires index < |s.queue| && run in s.runs && s.runs[run].status.Running? && !Live(s.items, s.runs[run].item)
    requires s.queue[index] == FinalizeRun(run, s.queue[index].retriesLeft) ==> HasDataset(a)
    ensures var t := Delivered(s, index, acked, r, a); run in t.runs && t.runs[run] == s.runs[run]
  {
    var taken := if acked then s.(queue := s.queue[..index] + s.queue[index + 1..]) else s;
    match s.queue[index]
    case ProcessItem(id, _) => ProcessedRuns(taken, id, r);
    case FinalizeRun(ended, _) => RunFinalizedRuns(taken, ended, a);
  }

  lemma TrashedRunSurvivesTick(s: Store, stale: seq<RunId>, answers: map<RunId, Answer>, run: RunId)
    requires IsListing(Stale(s), STALE_LIMIT, stale) && run in s.runs
    requires !Live(s.items, s.runs[run].item) && HasDataset(Ask(answers, run))
    ensures var t := Next(s, SweepStaleRuns(stale, answers)); run in t.runs && t.runs[run] == s.runs[run]
  {
    assert forall r | r in stale :: r in Stale(s);
    if run in stale {
      TrashedRunBlocksTheTick(s, stale, answers, run);
    } else if StaleSwept(s, stale, answers).Rescue? {
      StaleSweptKeeps(s, stale, answers);
    }
  }

  /** Such a run stays `running`: neither its callback nor any sweep can end it while its memory is trashed. */
  lemma TrashedRunStaysRunning(s: Store, step: Step, run: RunId)
    requires Legal(s, step) && run in s.runs && s.runs[run].status.Running?
    requires !Live(s.items, s.runs[run].item) && DataReady(s, step, run)
    ensures run in Next(s, step).runs && Next(s, step).runs[run] == s.runs[run]
  {
    match step
    case Deliver(index, acked, r, a) => TrashedRunSurvivesDelivery(s, index, acked, r, a, run);
    case SweepStaleRuns(stale, answers) => TrashedRunSurvivesTick(s, stale, answers, run);
    case PurgeExpired(rows) =>
      assert forall id | id in rows :: id in ExpiredTrash(s);
      PurgedRowsKeep(s, rows);
    case _ =>
  }

  // ---- how a vault gets there ----

  const EMPTY := Store(map[], map[], map[], [], 0)

  /** A saved link whose extraction is deferred to run 1, trashed while the provider works. */
  const LINK := Item(0, OtherType, Some("u"), SCRUBBED, Pending, None, 0, 0, None, None)
  const DEFERRED := Readings(Deferred(1), NothingToRead, AiFault(""))
  const DONE := Answer("SUCCEEDED", Some("d"), None, AiFault(""))

  function StepsToTheTick(): seq<Step> {
    [Capture(0, LINK, true), Deliver(0, true, DEFERRED, LookupFailed), Trash(0, 0), Wait(RUN_TIMEOUT_SECONDS + 1)]
  }

  ghost function StatesToTheTick(): seq<Store> {
    var captured := Store(map[0 := LINK], map[], map[], [ProcessItem(0, MAX_RETRIES)], 0);
    var running := Store(map[0 := LINK.(status := Processing)], map[1 := Run(0, Running, None, None, 0, None)],
        map[], [], 0);
    var trashed := running.(items := map[0 := LINK.(status := Processing, deletedAt := Some(0))]);
    [EMPTY, captured, running, trashed, trashed.(now := RUN_TIMEOUT_SECONDS + 1)]
  }

  lemma DeferredDelivery(s: Store)
    requires s == Store(map[0 := LINK], map[], map[], [ProcessItem(0, MAX_RETRIES)], 0)
    ensures Next(s, Deliver(0, true, DEFERRED, LookupFailed))
         == Store(map[0 := LINK.(status := Processing)], map[1 := Run(0, Running, None, None, 0, None)], map[], [], 0)
  {
    var taken := s.(queue := s.queue[..0] + s.queue[1..]);
    assert taken.queue == [];
    assert Processed(taken, 0, DEFERRED).store.items == map[0 := LINK.(status := Processing)];
  }

  lemma StepsLeadToTheTick()
    ensures IsRun(StatesToTheTick(), StepsToTheTick())
  {
    var states, steps := StatesToTheTick(), StepsToTheTick();
    assert Next(states[0], steps[0]) == states[1];
    DeferredDelivery(states[1]);
    assert Next(states[2], steps[2]) == states[3];
    assert Next(states[3], steps[3]) == states[4];
  }

  /**
   Capture, defer, trash, wait: from an empty store these four steps reach a state in which the
   stale query lists the run, the provider has its data, and the tick changes nothing.
   */
  lemma BlockedTickIsReachable()
    ensures IsRun(StatesToTheTick(), StepsToTheTick()) && StatesToTheTick()[0] == EMPTY
    ensures var s, tick := StatesToTheTick()[4], SweepStaleRuns([1], map[1 := DONE]);
            Stale(s) == {1} && Legal(s, tick) && Next(s, tick) == s
  {
    StepsLeadToTheTick();
    var s := StatesToTheTick()[4];
    assert Stale(s) == {1};
    assert IsListing({1}, STALE_LIMIT, [1]);
    TrashedRunBlocksTheTick(s, [1], map[1 := DONE], 1);
  }
}
