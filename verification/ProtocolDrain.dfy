/** Progress of the capture protocol: every productive round lowers one lexicographic measure. */
module ProtocolDrain {
  import opened Base
  import opened Rows
  import opened Lifecycle
  import opened Protocol
  import opened ProtocolSafety

  // ---- the measure ----

  /** How many more sweeps a pending row can survive before it must be given up. */
  function Allowance(item: Item): nat {
    if item.retryCount < MAX_SWEEP_REQUEUES then MAX_SWEEP_REQUEUES + 1 - item.retryCount else 1
  }

  predicate Waiting(s: Store, id: ItemId) {
    Live(s.items, id) && s.items[id].status.Pending?
  }

  ghost function Budget(s: Store): set<(ItemId, nat)> {
    set id, k: nat | id in s.items && Waiting(s, id) && k < Allowance(s.items[id]) :: (id, k)
  }

  /** The deliveries the queue can still make, of messages of one kind. */
  function Attempts(queue: seq<Message>, finalizing: bool): nat {
    if queue == [] then 0
    else
      Attempts(queue[..|queue| - 1], finalizing) + AttemptsOf(queue[|queue| - 1], finalizing)
  }

  function AttemptsOf(message: Message, finalizing: bool): nat {
    if message.FinalizeRun? == finalizing then 1 + message.retriesLeft else 0
  }

  ghost function RunningRuns(s: Store): set<RunId> {
    set run | run in s.runs && s.runs[run].status.Running?
  }

  ghost function Orphans(s: Store): set<ItemId> {
    set id | id in s.items && Live(s.items, id) && s.items[id].status.Processing? && id !in ItemsWithRunningRun(s)
  }

  /**
   The measure of one state, from its heaviest part: the sweeps the pending rows can still survive,
   the deliveries left of `process` messages, the deliveries left of `finalize` messages among the
   same known runs, the running runs, and the rows stuck in processing.
   */
  ghost predicate Less(t: Store, s: Store) {
    || Budget(t) < Budget(s)
    || (Budget(t) == Budget(s) &&
        (|| Attempts(t.queue, false) < Attempts(s.queue, false)
         || (Attempts(t.queue, false) == Attempts(s.queue, false) && t.runs.Keys == s.runs.Keys &&
             (|| Attempts(t.queue, true) < Attempts(s.queue, true)
              || (Attempts(t.queue, true) == Attempts(s.queue, true) &&
                  (|| RunningRuns(t) < RunningRuns(s)
                   || (RunningRuns(t) == RunningRuns(s) && Orphans(t) < Orphans(s))))))))
  }

  // ---- productive steps ----

  /**
   A delivery that is acknowledged, a sweep that found something, and a stale tick that commits and
   was told of at least one run that it is over.
   */
  ghost predicate Productive(s: Store, step: Step) {
    Legal(s, step) &&
    match step
    case Deliver(_, acked, _, _) => acked
    case SweepStrandedItems(pending, _, processing) => pending != [] || processing != []
    case SweepStaleRuns(stale, answers) =>
      && (forall run | run in stale :: run in s.runs)
      && (exists run | run in stale :: Terminal(Ask(answers, run)))
      && StaleSwept(s, stale, answers).Rescue?
    case _ => false
  }

  lemma {:induction false} AttemptsAppend(queue: seq<Message>, message: Message, finalizing: bool)
    ensures Attempts(queue + [message], finalizing) == Attempts(queue, finalizing) + AttemptsOf(message, finalizing)
  {
    assert (queue + [message])[..|queue|] == queue;
  }

  lemma {:induction false} AttemptsWithout(queue: seq<Message>, index: nat, finalizing: bool)
    requires index < |queue|
    ensures Attempts(queue[..index] + queue[index + 1..], finalizing) + AttemptsOf(queue[index], finalizing)
         == Attempts(queue, finalizing)
  {
    var front, last := queue[..|queue| - 1], queue[|queue| - 1];
    if index == |queue| - 1 {
      assert queue[..index] + queue[index + 1..] == front;
    } else {
      AttemptsWithout(front, index, finalizing);
      assert queue[..index] + queue[index + 1..] == (front[..index] + front[index + 1..]) + [last];
      AttemptsAppend(front[..index] + front[index + 1..], last, finalizing);
    }
  }

  lemma EnrichedRow(s: Store, id: ItemId, item: Item, ai: AiReading)
    ensures var t := Enriched(s, id, item, ai).store;
            && t.queue == s.queue && t.items.Keys == s.items.Keys + {id}
            && !t.items[id].status.Pending?
            && forall other | other in s.items && other != id :: t.items[other] == s.items[other]
  {
  }

  /** A step that rewrote at most row `id`, and did not leave it pending. */
  ghost predicate SettlesRow(s: Store, t: Store, id: ItemId) {
    && t.queue == s.queue && t.items.Keys == s.items.Keys
    && (t.items == s.items || (id in s.items && !t.items[id].status.Pending?))
    && forall other | other in s.items && other != id :: t.items[other] == s.items[other]
  }

  lemma EnrichedSettles(s: Store, id: ItemId, item: Item, ai: AiReading)
    requires id in s.items
    ensures SettlesRow(s, Enriched(s, id, item, ai).store, id)
  {
    EnrichedRow(s, id, item, ai);
  }

  lemma ProcessedRow(s: Store, id: ItemId, r: Readings)
    ensures SettlesRow(s, Processed(s, id, r).store, id)
  {
    if Live(s.items, id) {
      var item := s.items[id].(status := Processing, error := None);
      if Present(item.sourceUrl) {
        if r.extraction.Extracted? {
          EnrichedSettles(s, id, item.(kind := r.extraction.kind, details := r.extraction.details), r.ai);
        }
      } else if NeedsMedia(item) {
        if r.media.ReadText? {
          EnrichedSettles(s, id, item.(details := item.details.(content := Some(r.media.content))), r.ai);
        }
      } else {
        EnrichedSettles(s, id, item, r.ai);
      }
    }
  }

  lemma FinalizedRow(s: Store, run: RunId, a: Answer)
    ensures var t := RunFinalized(s, run, a).store;
            && t.queue == s.queue
            && (t.items == s.items
                || (run in s.runs && s.runs[run].item in s.items && t.items.Keys == s.items.Keys
                    && !t.items[s.runs[run].item].status.Pending?
                    && forall id | id in s.items && id != s.runs[run].item :: t.items[id] == s.items[id]))
  {
    if run in s.runs && HasDataset(a) && Fetchable(s, s.runs[run].item, a) && a.payload.value.Built? {
      var before := WithDataset(s, run, a.dataset.value);
      var id := s.runs[run].item;
      EnrichedRow(before, id, s.items[id].(kind := a.payload.value.kind, details := a.payload.value.details), a.ai);
    }
  }

  /** No task body makes a row pending. */
  lemma TasksDoNotRequeue(s: Store, message: Message, r: Readings, a: Answer)
    ensures Budget(RunTask(s, message, r, a).store) <= Budget(s)
    ensures RunTask(s, message, r, a).store.queue == s.queue
  {
    match message
    case ProcessItem(id, _) => ProcessedRow(s, id, r);
    case FinalizeRun(run, _) => FinalizedRow(s, run, a);
  }

  lemma DeliveryDecreases(s: Store, index: nat, r: Readings, a: Answer)
    requires index < |s.queue|
    ensures Less(Delivered(s, index, true, r, a), s)
  {
    var message := s.queue[index];
    var taken := s.(queue := s.queue[..index] + s.queue[index + 1..]);
    TasksDoNotRequeue(taken, message, r, a);
    assert Budget(taken) == Budget(s);
    var t := Delivered(s, index, true, r, a);
    assert Budget(t) == Budget(RunTask(taken, message, r, a).store);
    DeliverySpends(s, index, r, a, false);
    DeliverySpends(s, index, r, a, true);
    if message.FinalizeRun? {
      RunFinalizedRuns(taken, message.run, a);
    }
  }

  /** A delivery spends an attempt of its own kind and none of the other. */
  lemma DeliverySpends(s: Store, index: nat, r: Readings, a: Answer, finalizing: bool)
    requires index < |s.queue|
    ensures var t := Delivered(s, index, true, r, a);
            if s.queue[index].FinalizeRun? == finalizing
            then Attempts(t.queue, finalizing) < Attempts(s.queue, finalizing)
            else Attempts(t.queue, finalizing) == Attempts(s.queue, finalizing)
  {
    var message := s.queue[index];
    var taken := s.(queue := s.queue[..index] + s.queue[index + 1..]);
    AttemptsWithout(s.queue, index, finalizing);
    TasksDoNotRequeue(taken, message, r, a);
    if message.retriesLeft > 0 {
      AttemptsAppend(taken.queue, message.(retriesLeft := message.retriesLeft - 1), finalizing);
    }
  }

  lemma SweptPendingSpends(s: Store, pending: seq<ItemId>, accepted: set<ItemId>, processing: seq<ItemId>)
    requires Legal(s, SweepStrandedItems(pending, accepted, processing))
    ensures Budget(StrandedSwept(s, pending, accepted, processing)) <= Budget(s)
    ensures pending != [] ==> Budget(StrandedSwept(s, pending, accepted, processing)) != Budget(s)
  {
    var t := StrandedSwept(s, pending, accepted, processing);
    forall id | id in pending
      ensures Waiting(s, id)
    {
      assert id in Stranded(s, Pending, STUCK_PENDING_SECONDS);
    }
    if pending != [] {
      var id := pending[0];
      var top: nat := Allowance(s.items[id]) - 1;
      assert id in pending;
      assert (id, top) in Budget(s);
      assert (id, top) !in Budget(t);
    }
  }

  lemma SweptProcessingReleases(s: Store, accepted: set<ItemId>, processing: seq<ItemId>)
    requires Legal(s, SweepStrandedItems([], accepted, processing)) && processing != []
    ensures var t := StrandedSwept(s, [], accepted, processing);
            t.queue == s.queue && Budget(t) == Budget(s) && RunningRuns(t) == RunningRuns(s) && Orphans(t) < Orphans(s)
  {
    var t := StrandedSwept(s, [], accepted, processing);
    forall id | id in processing
      ensures id in Orphans(s) && id !in Orphans(t)
    {
      assert id in Stranded(s, Processing, STUCK_PROCESSING_SECONDS);
    }
    assert processing[0] in processing;
    assert t.queue == s.queue;
    assert ItemsWithRunningRun(t) == ItemsWithRunningRun(s);
    forall id | id in s.items
      ensures Waiting(t, id) <==> Waiting(s, id)
      ensures Waiting(s, id) ==> t.items[id] == s.items[id]
    {
    }
    assert Budget(t) == Budget(s);
    assert Orphans(t) <= Orphans(s);
  }

  lemma StrandedSweepDecreases(s: Store, pending: seq<ItemId>, accepted: set<ItemId>, processing: seq<ItemId>)
    requires Legal(s, SweepStrandedItems(pending, accepted, processing))
    requires pending != [] || processing != []
    ensures Less(StrandedSwept(s, pending, accepted, processing), s)
  {
    if pending != [] {
      SweptPendingSpends(s, pending, accepted, processing);
    } else {
      SweptProcessingReleases(s, accepted, processing);
    }
  }

  /** A committed tick ends exactly the listed runs it was told are over, and re-queues nothing. */
  lemma {:induction false} StaleSweepEnds(s: Store, stale: seq<RunId>, answers: map<RunId, Answer>)
    requires forall run | run in stale :: run in s.runs
    requires StaleSwept(s, stale, answers).Rescue?
    ensures var t := StaleSwept(s, stale, answers).store;
            && Budget(t) <= Budget(s) && t.queue == s.queue && t.runs.Keys == s.runs.Keys
            && RunningRuns(t) == RunningRuns(s) - set run | run in stale && Terminal(Ask(answers, run))
    decreases |stale|
  {
    if stale == [] {
      assert (set run | run in stale) == {};
    } else {
      var run, a := stale[0], Ask(answers, stale[0]);
      var first := SweptRun(s, run, a).store;
      RescueShifts(s, run, a);
      if Terminal(a) {
        RescueRequeuesNothing(s, run, a);
      } else {
        assert first == s;
      }
      StaleSweepEnds(first, stale[1..], answers);
      assert forall r :: r in stale <==> r == run || r in stale[1..];
    }
  }

  lemma RescueRequeuesNothing(s: Store, run: RunId, a: Answer)
    requires run in s.runs && Terminal(a) && SweptRun(s, run, a).Rescue?
    ensures var t := SweptRun(s, run, a).store;
            Budget(t) <= Budget(s) && t.queue == s.queue && RunningRuns(t) == RunningRuns(s) - {run}
  {
    var t := SweptRun(s, run, a).store;
    RescuedRuns(s, run, a);
    RescuedRow(s, run, a);
    forall id | id in t.items && Waiting(t, id)
      ensures id in s.items && s.items[id] == t.items[id]
    {
    }
  }

  lemma RescuedRuns(s: Store, run: RunId, a: Answer)
    requires run in s.runs && Terminal(a) && SweptRun(s, run, a).Rescue?
    ensures RunningRuns(SweptRun(s, run, a).store) == RunningRuns(s) - {run}
  {
    if HasDataset(a) {
      FinalizedVerdict(WithDataset(s, run, a.dataset.value), s.runs[run].item, a.payload.value, a.ai);
    }
  }

  lemma RescuedRow(s: Store, run: RunId, a: Answer)
    requires run in s.runs && SweptRun(s, run, a).Rescue?
    ensures SettlesRow(s, SweptRun(s, run, a).store, s.runs[run].item)
  {
    var id := s.runs[run].item;
    if HasDataset(a) && Fetchable(s, id, a) && a.payload.value.Built? {
      EnrichedSettles(WithDataset(s, run, a.dataset.value), id,
                      s.items[id].(kind := a.payload.value.kind, details := a.payload.value.details), a.ai);
    }
  }

  /** Every productive step strictly lowers the measure. */
  lemma ProductiveDecreases(s: Store, step: Step)
    requires Productive(s, step)
    ensures Less(Next(s, step), s)
  {
    match step
    case Deliver(index, _, r, a) => DeliveryDecreases(s, index, r, a);
    case SweepStrandedItems(pending, accepted, processing) =>
      StrandedSweepDecreases(s, pending, accepted, processing);
    case SweepStaleRuns(stale, answers) =>
      StaleSweepEnds(s, stale, answers);
      var run :| run in stale && Terminal(Ask(answers, run));
      assert run in Stale(s);
      assert run in RunningRuns(s);
  }

  // ---- steps that cost nothing ----

  /** Nothing but the clock may move: an empty sweep, a refused request, a wait. */
  ghost predicate Idle(s: Store, step: Step) {
    Legal(s, step) ==> Next(s, step) == s.(now := Next(s, step).now)
  }

  lemma {:induction false} UntoldSweepKeeps(s: Store, stale: seq<RunId>, answers: map<RunId, Answer>)
    requires forall run | run in stale :: run in s.runs && !Terminal(Ask(answers, run))
    ensures StaleSwept(s, stale, answers) == Rescue(s, 0)
    decreases |stale|
  {
    if stale != [] {
      assert stale[0] in stale;
      UntoldSweepKeeps(s, stale[1..], answers);
    }
  }

  /** A tick that aborts, or is told of no run that it is over, changes nothing. */
  lemma QuietTickIsIdle(s: Store, stale: seq<RunId>, answers: map<RunId, Answer>)
    requires Legal(s, SweepStaleRuns(stale, answers)) && !Productive(s, SweepStaleRuns(stale, answers))
    ensures Idle(s, SweepStaleRuns(stale, answers))
  {
    assert forall run | run in stale :: run in Stale(s);
    if StaleSwept(s, stale, answers).Rescue? {
      UntoldSweepKeeps(s, stale, answers);
    }
  }

  /** So does a stranded sweep that finds nothing. */
  lemma EmptySweepIsIdle(s: Store, accepted: set<ItemId>)
    ensures Idle(s, SweepStrandedItems([], accepted, []))
  {
    assert StrandedSwept(s, [], accepted, []).items == s.items;
  }

  // ---- draining ----

  datatype Round = Round(wait: nat, step: Step)

  /**
   What the outside does: one round after another; at most `callbacks` callbacks for one run, which
   come for runs the table knows or, ahead of their row, for one of `early`; and at most
   `disturbances` rounds of any other kind, such as a person's request or a delivery whose
   acknowledgement is lost.
   */
  datatype Environment = Environment(rounds: nat -> Round, callbacks: nat, early: set<RunId>, disturbances: nat)

  function Waited(s: Store, seconds: nat): Store {
    s.(now := s.now + seconds)
  }

  ghost function After(s: Store, env: Environment, n: nat): Store
    decreases n, 0
  {
    if n == 0 then s
    else
      var w := Before(s, env, n - 1);
      if Legal(w, env.rounds(n - 1).step) then Next(w, env.rounds(n - 1).step) else w
  }

  /** The state round `n` acts on. */
  ghost function Before(s: Store, env: Environment, n: nat): Store
    decreases n, 1
  {
    Waited(After(s, env, n), env.rounds(n).wait)
  }

  /** The callbacks for `run` in the first `n` rounds. */
  function Calls(env: Environment, n: nat, run: RunId): nat {
    if n == 0 then 0 else Calls(env, n - 1, run) + if env.rounds(n - 1).step == Callback(run) then 1 else 0
  }

  /** The callbacks that may still come for runs known by now. */
  ghost function CallbacksLeft(s: Store, env: Environment, n: nat): set<(RunId, nat)> {
    set run, k: nat | run in After(s, env, n).runs.Keys + env.early && k < env.callbacks && Calls(env, n, run) <= k ::
        (run, k)
  }

  /** Round `n` delivers a callback that is still due. */
  ghost predicate CallsBack(s: Store, env: Environment, n: nat) {
    var step := env.rounds(n).step;
    && step.Callback? && (step.run in After(s, env, n).runs || step.run in env.early)
    && Calls(env, n, step.run) < env.callbacks
  }

  ghost predicate Progresses(s: Store, env: Environment, n: nat) {
    Productive(Before(s, env, n), env.rounds(n).step) || CallsBack(s, env, n)
  }

  ghost predicate Disturbs(s: Store, env: Environment, n: nat) {
    !Progresses(s, env, n) && !Idle(Before(s, env, n), env.rounds(n).step)
  }

  ghost function Disturbances(s: Store, env: Environment, n: nat): nat {
    if n == 0 then 0 else Disturbances(s, env, n - 1) + if Disturbs(s, env, n - 1) then 1 else 0
  }

  ghost predicate Quiescent(s: Store) {
    && s.queue == [] && RunningRuns(s) == {}
    && forall id | id in s.items && Live(s.items, id) :: Settled(s.items[id].status)
  }

  /**
   Disturbances stay within bounds, and as long as there is work left some later round does a piece of
   it or is one of them.
   */
  ghost predicate Working(s: Store, env: Environment) {
    && (forall n: nat :: Disturbances(s, env, n) <= env.disturbances)
    && (forall n: nat :: WorksFrom(s, env, n))
  }

  ghost predicate WorksFrom(s: Store, env: Environment, n: nat) {
    exists m: nat :: WorksAt(s, env, n, m)
  }

  ghost predicate WorksAt(s: Store, env: Environment, n: nat, m: nat) {
    n <= m && (Quiescent(After(s, env, m)) || Progresses(s, env, m) || Disturbs(s, env, m))
  }

  // ---- the measure of a round ----

  datatype Measure = Measure(
    disturbances: nat, budget: set<(ItemId, nat)>, processing: nat, callbacks: set<(RunId, nat)>,
    finalizing: nat, running: set<RunId>, orphans: set<ItemId>)

  ghost function MeasureAt(s: Store, env: Environment, n: nat): Measure {
    var here, seen := After(s, env, n), Disturbances(s, env, n);
    Measure(if seen <= env.disturbances then env.disturbances - seen else 0,
            Budget(here), Attempts(here.queue, false), CallbacksLeft(s, env, n),
            Attempts(here.queue, true), RunningRuns(here), Orphans(here))
  }

  ghost predicate Lower(a: Measure, b: Measure) {
    || a.disturbances < b.disturbances
    || (a.disturbances == b.disturbances &&
        (|| a.budget < b.budget
         || (a.budget == b.budget &&
             (|| a.processing < b.processing
              || (a.processing == b.processing &&
                  (|| a.callbacks < b.callbacks
                   || (a.callbacks == b.callbacks && LowerAtTheEnd(a, b))))))))
  }

  ghost predicate LowerAtTheEnd(a: Measure, b: Measure) {
    || a.finalizing < b.finalizing
    || (a.finalizing == b.finalizing && (a.running < b.running || (a.running == b.running && a.orphans < b.orphans)))
  }

  /** Waiting moves the clock and nothing the measure counts. */
  lemma SameButClock(s: Store, w: Store)
    requires w == s.(now := w.now)
    ensures Budget(w) == Budget(s) && RunningRuns(w) == RunningRuns(s) && Orphans(w) == Orphans(s)
  {
    assert ItemsWithRunningRun(w) == ItemsWithRunningRun(s);
  }

  lemma WaitingCostsNothing(s: Store, seconds: nat, t: Store)
    requires Less(t, Waited(s, seconds))
    ensures Less(t, s)
  {
    SameButClock(s, Waited(s, seconds));
  }

  ghost predicate RoundLowers(s: Store, env: Environment, n: nat) {
    Lower(MeasureAt(s, env, n + 1), MeasureAt(s, env, n))
  }

  lemma OneRound(s: Store, env: Environment, n: nat)
    requires Legal(Before(s, env, n), env.rounds(n).step)
    ensures After(s, env, n + 1) == Next(Before(s, env, n), env.rounds(n).step)
    ensures Before(s, env, n) == Waited(After(s, env, n), env.rounds(n).wait)
  {
  }

  /** Only a callback spends a callback, and no step takes a known run away. */
  lemma CallbacksKept(s: Store, env: Environment, n: nat)
    requires After(s, env, n + 1).runs.Keys == After(s, env, n).runs.Keys
    ensures CallbacksLeft(s, env, n + 1) <= CallbacksLeft(s, env, n)
    ensures !env.rounds(n).step.Callback? ==> CallbacksLeft(s, env, n + 1) == CallbacksLeft(s, env, n)
  {
  }

  lemma ProductiveRound(s: Store, env: Environment, n: nat)
    requires Productive(Before(s, env, n), env.rounds(n).step)
    ensures RoundLowers(s, env, n)
  {
    var here, round := After(s, env, n), env.rounds(n);
    OneRound(s, env, n);
    ProductiveDecreases(Before(s, env, n), round.step);
    WaitingCostsNothing(here, round.wait, After(s, env, n + 1));
    assert Progresses(s, env, n);
    if After(s, env, n + 1).runs.Keys == here.runs.Keys {
      CallbacksKept(s, env, n);
    }
  }

  /** A callback queues a message and spends one of the callbacks left. */
  lemma CallbackRound(s: Store, env: Environment, n: nat)
    requires CallsBack(s, env, n)
    ensures RoundLowers(s, env, n)
  {
    var here, next, run := After(s, env, n), After(s, env, n + 1), env.rounds(n).step.run;
    OneRound(s, env, n);
    assert next.queue == here.queue + [FinalizeRun(run, MAX_RETRIES)];
    AttemptsAppend(here.queue, FinalizeRun(run, MAX_RETRIES), false);
    assert next.items == here.items && next.runs == here.runs;
    assert Budget(next) == Budget(here);
    CallbacksKept(s, env, n);
    CallbackSpent(s, env, n);
    assert Progresses(s, env, n);
  }

  lemma CallbackSpent(s: Store, env: Environment, n: nat)
    requires CallsBack(s, env, n)
    ensures CallbacksLeft(s, env, n + 1) != CallbacksLeft(s, env, n)
  {
    var run := env.rounds(n).step.run;
    assert (run, Calls(env, n, run)) in CallbacksLeft(s, env, n);
    assert (run, Calls(env, n, run)) !in CallbacksLeft(s, env, n + 1);
  }

  lemma IdleRound(s: Store, env: Environment, n: nat)
    requires Idle(Before(s, env, n), env.rounds(n).step)
    ensures MeasureAt(s, env, n + 1) == MeasureAt(s, env, n)
  {
    var here, next := After(s, env, n), After(s, env, n + 1);
    assert next == here.(now := next.now);
    SameButClock(here, next);
    if env.rounds(n).step.Callback? {
      CallbackIsNotIdle(Before(s, env, n), env.rounds(n).step);
    } else {
      CallbacksKept(s, env, n);
    }
  }

  lemma CallbackIsNotIdle(s: Store, step: Step)
    requires step.Callback?
    ensures !Idle(s, step)
  {
    assert |Next(s, step).queue| == |s.queue| + 1;
  }

  lemma EachRound(s: Store, env: Environment, n: nat)
    requires Working(s, env)
    ensures || RoundLowers(s, env, n)
            || (!Progresses(s, env, n) && !Disturbs(s, env, n) && MeasureAt(s, env, n + 1) == MeasureAt(s, env, n))
  {
    assert Disturbances(s, env, n + 1) <= env.disturbances;
    if Productive(Before(s, env, n), env.rounds(n).step) {
      ProductiveRound(s, env, n);
    } else if CallsBack(s, env, n) {
      CallbackRound(s, env, n);
    } else if Idle(Before(s, env, n), env.rounds(n).step) {
      IdleRound(s, env, n);
    }
  }

  ghost predicate Falls(measure: nat -> Measure, k: nat) {
    Lower(measure(k + 1), measure(k))
  }

  ghost predicate NeverRises(measure: nat -> Measure, k: nat) {
    Falls(measure, k) || measure(k + 1) == measure(k)
  }

  ghost predicate FallsLater(measure: nat -> Measure, quiet: nat -> bool, k: nat) {
    exists m: nat :: FallsAt(measure, quiet, k, m)
  }

  ghost predicate FallsAt(measure: nat -> Measure, quiet: nat -> bool, k: nat, m: nat) {
    k <= m && (quiet(m) || Falls(measure, m))
  }

  /** A measure that no round raises, and that some later round lowers until it is quiet, gets there. */
  lemma {:induction false} Descend(measure: nat -> Measure, quiet: nat -> bool, n: nat, m: nat) returns (q: nat)
    requires forall k: nat :: NeverRises(measure, k) && FallsLater(measure, quiet, k)
    requires FallsAt(measure, quiet, n, m)
    ensures quiet(q)
    decreases measure(n).disturbances, measure(n).budget, measure(n).processing, measure(n).callbacks,
              measure(n).finalizing, measure(n).running, measure(n).orphans, m - n
  {
    if quiet(n) {
      q := n;
    } else {
      assert NeverRises(measure, n);
      if Falls(measure, n) {
        assert FallsLater(measure, quiet, n + 1);
        var ahead: nat :| FallsAt(measure, quiet, n + 1, ahead);
        q := Descend(measure, quiet, n + 1, ahead);
      } else {
        q := Descend(measure, quiet, n + 1, m);
      }
    }
  }

  lemma MeasureFalls(s: Store, env: Environment, k: nat, measure: nat -> Measure, quiet: nat -> bool)
    requires Working(s, env)
    requires forall n: nat :: measure(n) == MeasureAt(s, env, n)
    requires forall n: nat :: quiet(n) <==> Quiescent(After(s, env, n))
    ensures NeverRises(measure, k) && FallsLater(measure, quiet, k)
  {
    EachRound(s, env, k);
    assert WorksFrom(s, env, k);
    var m: nat :| WorksAt(s, env, k, m);
    EachRound(s, env, m);
    assert FallsAt(measure, quiet, k, m);
  }

  /** A vault that keeps working drains. */
  lemma WorkingDrains(s: Store, env: Environment)
    requires Working(s, env)
    ensures exists n: nat :: Quiescent(After(s, env, n))
  {
    var measure, quiet := (n: nat) => MeasureAt(s, env, n), (n: nat) => Quiescent(After(s, env, n));
    forall k: nat
      ensures NeverRises(measure, k) && FallsLater(measure, quiet, k)
    {
      MeasureFalls(s, env, k, measure, quiet);
    }
    assert FallsLater(measure, quiet, 0);
    var m: nat :| FallsAt(measure, quiet, 0, m);
    var q := Descend(measure, quiet, 0, m);
    assert Quiescent(After(s, env, q));
  }

  // ---- a fair environment keeps the vault working ----

  /** Round `m` looks at the queue, and if a message is there then one is delivered and acknowledged. */
  ghost predicate Serves(s: Store, env: Environment, n: nat, m: nat) {
    var step, queue := env.rounds(m).step, After(s, env, m).queue;
    n <= m && (queue != [] ==> step.Deliver? && step.acked && step.index < |queue|)
  }

  /** A stranded sweep, no earlier than `t`. */
  ghost predicate LateSweep(w: Store, t: Time, step: Step) {
    step.SweepStrandedItems? && w.now >= t && Legal(w, step)
  }

  /**
   Some listed run is over, and every listed run the provider has data for has a live memory with a
   source, whose finishing returns or which is completed by then.
   */
  ghost predicate Answering(s: Store, stale: seq<RunId>, answers: map<RunId, Answer>) {
    && (forall run | run in stale :: run in s.runs)
    && (stale != [] ==> exists run | run in stale :: Terminal(Ask(answers, run)))
    && (forall i | 0 <= i < |stale| :: Rescuable(s, stale, answers, i))
  }

  /** A stale tick, no earlier than `t`, that the provider's answers let do its work. */
  ghost predicate LateTick(w: Store, t: Time, step: Step) {
    step.SweepStaleRuns? && w.now >= t && Legal(w, step) && Answering(w, step.stale, step.answers)
  }

  ghost predicate SweepsAt(s: Store, env: Environment, n: nat, t: Time, m: nat) {
    n <= m && LateSweep(Before(s, env, m), t, env.rounds(m).step)
  }

  ghost predicate TicksAt(s: Store, env: Environment, n: nat, t: Time, m: nat) {
    n <= m && LateTick(Before(s, env, m), t, env.rounds(m).step)
  }

  ghost predicate ServedFrom(s: Store, env: Environment, n: nat) {
    exists m: nat :: Serves(s, env, n, m)
  }

  ghost predicate SweptFrom(s: Store, env: Environment, n: nat, t: Time) {
    exists m: nat :: SweepsAt(s, env, n, t, m)
  }

  ghost predicate TickedFrom(s: Store, env: Environment, n: nat, t: Time) {
    exists m: nat :: TicksAt(s, env, n, t, m)
  }

  /**
   What the drain asks of the world: a queued message is sooner or later delivered and acknowledged,
   both sweeps recur at ever later times, the provider's answers to some of those ticks are final and
   finishing returns, and only finitely many rounds are of another kind.
   */
  ghost predicate Fair(s: Store, env: Environment) {
    && (forall n: nat :: Disturbances(s, env, n) <= env.disturbances)
    && (forall n: nat :: ServedFrom(s, env, n))
    && (forall n: nat, t: Time :: SweptFrom(s, env, n, t))
    && (forall n: nat, t: Time :: TickedFrom(s, env, n, t))
  }

  /** A tick with something to do and such answers is productive. */
  lemma AnsweredTickIsProductive(s: Store, stale: seq<RunId>, answers: map<RunId, Answer>)
    requires Legal(s, SweepStaleRuns(stale, answers)) && stale != [] && Answering(s, stale, answers)
    ensures Productive(s, SweepStaleRuns(stale, answers))
  {
    TickCommitsIff(s, stale, answers);
  }

  /** Until some round makes progress or disturbs, only the clock moves. */
  lemma {:induction false} QuietUntil(s: Store, env: Environment, n: nat, m: nat) returns (k: nat)
    requires n <= m
    ensures n <= k <= m && (k < m ==> Progresses(s, env, k) || Disturbs(s, env, k))
    ensures After(s, env, k) == After(s, env, n).(now := After(s, env, k).now)
    decreases m - n
  {
    if n == m || Progresses(s, env, n) || Disturbs(s, env, n) {
      k := n;
    } else {
      IdleMovesTheClock(s, env, n);
      k := QuietUntil(s, env, n + 1, m);
    }
  }

  lemma IdleMovesTheClock(s: Store, env: Environment, n: nat)
    requires Idle(Before(s, env, n), env.rounds(n).step)
    ensures After(s, env, n + 1) == After(s, env, n).(now := After(s, env, n + 1).now)
  {
  }

  lemma ListingNotEmpty<T>(all: set<T>, limit: nat, rows: seq<T>)
    requires IsListing(all, limit, rows) && all != {} && limit > 0
    ensures rows != []
  {
  }

  /** Work that is left shows up in the query of one of the sweeps from some time on. */
  lemma WorkShowsUp(s: Store) returns (t: Time)
    requires !Quiescent(s) && s.queue == []
    ensures forall w: Store | w == s.(now := w.now) && w.now >= t ::
              if RunningRuns(s) != {} then Stale(w) != {}
              else Stranded(w, Pending, STUCK_PENDING_SECONDS) != {}
                   || Stranded(w, Processing, STUCK_PROCESSING_SECONDS) != {}
  {
    if RunningRuns(s) != {} {
      var run :| run in RunningRuns(s);
      t := s.runs[run].createdAt + RUN_TIMEOUT_SECONDS + 1;
      forall w: Store | w == s.(now := w.now) && w.now >= t
        ensures Stale(w) != {}
      {
        assert run in Stale(w);
      }
    } else {
      var id :| id in s.items && Live(s.items, id) && !Settled(s.items[id].status);
      t := s.items[id].updatedAt + STUCK_PROCESSING_SECONDS + 1;
      NoRunNoItem(s);
      forall w: Store | w == s.(now := w.now) && w.now >= t
        ensures || Stranded(w, Pending, STUCK_PENDING_SECONDS) != {}
                || Stranded(w, Processing, STUCK_PROCESSING_SECONDS) != {}
      {
        assert ItemsWithRunningRun(w) == ItemsWithRunningRun(s);
        if s.items[id].status.Pending? {
          assert id in Stranded(w, Pending, STUCK_PENDING_SECONDS);
        } else {
          assert id in Stranded(w, Processing, STUCK_PROCESSING_SECONDS);
        }
      }
    }
  }

  lemma NoRunNoItem(s: Store)
    requires RunningRuns(s) == {}
    ensures ItemsWithRunningRun(s) == {}
  {
    assert forall run | run in s.runs :: s.runs[run].status.Running? ==> run in RunningRuns(s);
  }

  /**
   And work is always there to be found: short of quiescence, after some wait either a message is
   queued or the query of one of the two sweeps returns a row.
   */
  lemma NeverStuck(s: Store) returns (wait: nat)
    requires !Quiescent(s) && s.queue == []
    ensures var w := Waited(s, wait);
            || Stale(w) != {}
            || Stranded(w, Pending, STUCK_PENDING_SECONDS) != {}
            || Stranded(w, Processing, STUCK_PROCESSING_SECONDS) != {}
  {
    wait := WorkShowsUp(s);
    assert Waited(s, wait).now >= wait;
  }

  lemma QueuedIsServed(s: Store, env: Environment, n: nat) returns (m: nat)
    requires Fair(s, env) && After(s, env, n).queue != []
    ensures WorksAt(s, env, n, m)
  {
    assert ServedFrom(s, env, n);
    var served: nat :| Serves(s, env, n, served);
    m := QuietUntil(s, env, n, served);
  }

  lemma RunIsTicked(s: Store, env: Environment, n: nat, t: Time) returns (m: nat)
    requires Fair(s, env)
    requires forall w: Store | w == After(s, env, n).(now := w.now) && w.now >= t :: Stale(w) != {}
    ensures WorksAt(s, env, n, m)
  {
    assert TickedFrom(s, env, n, t);
    var ticked: nat :| TicksAt(s, env, n, t, ticked);
    m := QuietUntil(s, env, n, ticked);
    if m == ticked {
      var w, step := Before(s, env, m), env.rounds(m).step;
      assert Stale(w) != {};
      ListingNotEmpty(Stale(w), STALE_LIMIT, step.stale);
      AnsweredTickIsProductive(w, step.stale, step.answers);
    }
  }

  lemma RowIsSwept(s: Store, env: Environment, n: nat, t: Time) returns (m: nat)
    requires Fair(s, env)
    requires forall w: Store | w == After(s, env, n).(now := w.now) && w.now >= t ::
               || Stranded(w, Pending, STUCK_PENDING_SECONDS) != {}
               || Stranded(w, Processing, STUCK_PROCESSING_SECONDS) != {}
    ensures WorksAt(s, env, n, m)
  {
    assert SweptFrom(s, env, n, t);
    var swept: nat :| SweepsAt(s, env, n, t, swept);
    m := QuietUntil(s, env, n, swept);
    if m == swept {
      var w, step := Before(s, env, m), env.rounds(m).step;
      if Stranded(w, Pending, STUCK_PENDING_SECONDS) != {} {
        ListingNotEmpty(Stranded(w, Pending, STUCK_PENDING_SECONDS), STRANDED_LIMIT, step.pending);
      } else {
        ListingNotEmpty(Stranded(w, Processing, STUCK_PROCESSING_SECONDS), STRANDED_LIMIT, step.processing);
      }
    }
  }

  /** In a fair environment the vault keeps working. */
  lemma FairWorks(s: Store, env: Environment)
    requires Fair(s, env)
    ensures Working(s, env)
  {
    forall n: nat
      ensures WorksFrom(s, env, n)
    {
      var here := After(s, env, n);
      if Quiescent(here) {
        assert WorksAt(s, env, n, n);
      } else if here.queue != [] {
        var m := QueuedIsServed(s, env, n);
      } else {
        var t := WorkShowsUp(here);
        if RunningRuns(here) != {} {
          var m := RunIsTicked(s, env, n, t);
        } else {
          var m := RowIsSwept(s, env, n, t);
        }
      }
    }
  }

  /**
   Whatever the scheduler, the models and the provider answer, however callbacks race the sweeps,
   and however many idle ticks come between: in a fair environment the vault drains.  Its queue
   empties, no run is left running and every live memory is completed, failed or skipped.
   */
  lemma Drain(s: Store, env: Environment)
    requires Fair(s, env)
    ensures exists n: nat :: Quiescent(After(s, env, n))
  {
    FairWorks(s, env);
    WorkingDrains(s, env);
  }

  // ---- a fair environment with work to do ----

  /** One memory whose worker went away. */
  const ABANDONED := LINK.(status := Processing)
  const START := Store(map[0 := ABANDONED], map[], map[], [], 0)

  /** Both sweeps by turns; the first one finds the row. */
  function BeatRound(n: nat): Round {
    if n == 0 then Round(STUCK_PROCESSING_SECONDS + 1, SweepStrandedItems([], {}, [0]))
    else Round(1, if n % 2 == 0 then SweepStrandedItems([], {}, []) else SweepStaleRuns([], map[]))
  }

  const BEAT := Environment(BeatRound, 0, {}, 0)

  ghost function Swept(now: Time): Store {
    var failed := FailedItem(ABANDONED, STOPPED_PARTWAY).(updatedAt := STUCK_PROCESSING_SECONDS + 1);
    Store(map[0 := failed], map[], map[], [], now)
  }

  lemma FirstBeat()
    ensures Productive(Before(START, BEAT, 0), BEAT.rounds(0).step)
    ensures After(START, BEAT, 1) == Swept(STUCK_PROCESSING_SECONDS + 1)
  {
    var w := START.(now := STUCK_PROCESSING_SECONDS + 1);
    assert Before(START, BEAT, 0) == w;
    assert Stranded(w, Pending, STUCK_PENDING_SECONDS) == {};
    assert Stranded(w, Processing, STUCK_PROCESSING_SECONDS) == {0};
    assert IsListing({0}, STRANDED_LIMIT, [0]);
  }

  lemma LaterBeat(now: Time)
    ensures Legal(Swept(now), SweepStrandedItems([], {}, [])) && Idle(Swept(now), SweepStrandedItems([], {}, []))
    ensures Legal(Swept(now), SweepStaleRuns([], map[])) && Idle(Swept(now), SweepStaleRuns([], map[]))
  {
    assert Stranded(Swept(now), Pending, STUCK_PENDING_SECONDS) == {};
    assert Stranded(Swept(now), Processing, STUCK_PROCESSING_SECONDS) == {};
    assert Stale(Swept(now)) == {};
    EmptySweepIsIdle(Swept(now), {});
    QuietTickIsIdle(Swept(now), [], map[]);
  }

  lemma {:induction false} Beats(n: nat)
    ensures n > 0 ==> After(START, BEAT, n) == Swept(STUCK_PROCESSING_SECONDS + n)
    ensures Disturbances(START, BEAT, n) == 0
  {
    if n == 1 {
      FirstBeat();
    } else if n > 1 {
      Beats(n - 1);
      LaterBeat(STUCK_PROCESSING_SECONDS + n);
      assert Before(START, BEAT, n - 1) == Swept(STUCK_PROCESSING_SECONDS + n);
      IdleMovesTheClock(START, BEAT, n - 1);
    }
  }

  lemma BeatActs(m: nat)
    requires m > 0
    ensures Before(START, BEAT, m) == Swept(STUCK_PROCESSING_SECONDS + m + 1)
  {
    Beats(m);
  }

  lemma BeatSteps(k: nat)
    ensures BEAT.rounds(2 * (k + 1)).step == SweepStrandedItems([], {}, [])
    ensures BEAT.rounds(2 * (k + 1) + 1).step == SweepStaleRuns([], map[])
  {
  }

  lemma LateBeat(now: Time)
    ensures LateSweep(Swept(now), now, SweepStrandedItems([], {}, []))
    ensures LateTick(Swept(now), now, SweepStaleRuns([], map[]))
  {
    LaterBeat(now);
  }

  lemma BeatSweepsAt(n: nat, t: Time, m: nat)
    requires m > n && m > t && BEAT.rounds(m).step == SweepStrandedItems([], {}, [])
    ensures SweepsAt(START, BEAT, n, t, m)
  {
    BeatActs(m);
    LateBeat(STUCK_PROCESSING_SECONDS + m + 1);
  }

  lemma BeatTicksAt(n: nat, t: Time, m: nat)
    requires m > n && m > t && BEAT.rounds(m).step == SweepStaleRuns([], map[])
    ensures TicksAt(START, BEAT, n, t, m)
  {
    BeatActs(m);
    LateBeat(STUCK_PROCESSING_SECONDS + m + 1);
  }

  lemma BeatServes(n: nat)
    ensures ServedFrom(START, BEAT, n)
  {
    Beats(n);
    assert Serves(START, BEAT, n, n);
  }

  /** Two beat sweeps that keep running are fair to a row that a lost worker left behind. */
  lemma BeatIsFair()
    ensures Fair(START, BEAT) && !Quiescent(START)
  {
    forall n: nat
      ensures Disturbances(START, BEAT, n) <= BEAT.disturbances && ServedFrom(START, BEAT, n)
    {
      Beats(n);
      BeatServes(n);
    }
    forall n: nat, t: Time
      ensures SweptFrom(START, BEAT, n, t) && TickedFrom(START, BEAT, n, t)
    {
      var m := 2 * (n + t + 1);
      BeatSteps(n + t);
      BeatSweepsAt(n, t, m);
      BeatTicksAt(n, t, m + 1);
    }
    assert Live(START.items, 0);
  }

  // ---- the two sweeps never reach for one row ----

  lemma {:induction false} StaleSweepTouchesOnlyItsRuns(s: Store, stale: seq<RunId>, answers: map<RunId, Answer>,
      id: ItemId)
    requires forall run | run in stale :: run in s.runs && s.runs[run].item != id
    requires id in s.items && StaleSwept(s, stale, answers).Rescue?
    ensures var t := StaleSwept(s, stale, answers).store; id in t.items && t.items[id] == s.items[id]
    decreases |stale|
  {
    if stale != [] {
      SweptRunKeeps(s, stale[0], Ask(answers, stale[0]));
      RescueShifts(s, stale[0], Ask(answers, stale[0]));
      StaleSweepTouchesOnlyItsRuns(SweptRun(s, stale[0], Ask(answers, stale[0])).store, stale[1..], answers, id);
    }
  }

  /** From one state, a row the stranded sweep changes is a row the stale sweep leaves alone. */
  lemma SweepersNeverShareARow(s: Store, stranded: Step, tick: Step, id: ItemId)
    requires stranded.SweepStrandedItems? && Legal(s, stranded)
    requires tick.SweepStaleRuns? && Legal(s, tick)
    requires id in s.items && Next(s, stranded).items[id] != s.items[id]
    ensures id in Next(s, tick).items && Next(s, tick).items[id] == s.items[id]
  {
    assert id in stranded.pending ==> id in Stranded(s, Pending, STUCK_PENDING_SECONDS);
    assert id in stranded.processing ==> id in Stranded(s, Processing, STUCK_PROCESSING_SECONDS);
    assert id !in ItemsWithRunningRun(s);
    forall run | run in tick.stale
      ensures run in s.runs && s.runs[run].item != id
    {
      assert run in Stale(s);
      assert s.runs[run].item in ItemsWithRunningRun(s);
    }
    if StaleSwept(s, tick.stale, tick.answers).Rescue? {
      StaleSweepTouchesOnlyItsRuns(s, tick.stale, tick.answers, id);
    }
  }
}
