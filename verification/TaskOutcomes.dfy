/** What each task body leaves on the rows, column by column and in the outside world's own words. */
module TaskOutcomes {
  import opened Base
  import opened Rows
  import opened Lifecycle
  import opened Protocol
  import opened ProtocolSafety

  // ---- what a reading leaves ----

  /** The text a memory is read by: its content, or its title when there is none. */
  predicate IsReadAs(d: Details, text: string) {
    && (Present(d.content) ==> text == d.content.value)
    && (!Present(d.content) && Present(d.title) ==> text == d.title.value)
    && (!Present(d.content) && !Present(d.title) ==> text == "")
  }

  /** The five columns the model fills, and the three it leaves. */
  predicate HasReading(d: Details, words: Details, ai: AiReading)
    requires ai.AiRead?
  {
    && d.summary == Some(ai.summary) && d.tags == ai.tags && d.category == ai.category
    && d.aiLabel == (if ai.aiLabel == "" then None else Some(ai.aiLabel)) && d.highlights == ai.highlights
    && d.title == words.title && d.content == words.content && d.storageKey == words.storageKey
  }

  /** The chunk holds the answered vector and the first 8000 characters of title, summary and text. */
  predicate Says(chunk: Chunk, words: Details, text: string, ai: AiReading)
    requires ai.AiRead? && ai.vector.Ok?
  {
    var whole := (if words.title.Some? then words.title.value else "") + "\n" + ai.summary + "\n" + text;
    chunk.vector == ai.vector.value && chunk.content <= whole && |chunk.content| == Min(8000, |whole|)
  }

  predicate HasChunk(s: Store, t: Store, id: ItemId, words: Details, text: string, ai: AiReading)
    requires ai.AiRead? && ai.vector.Ok? && id in s.items
  {
    && t.chunks.Keys == s.chunks.Keys + {(id, 0)}
    && (forall key | key in s.chunks && key != (id, 0) :: t.chunks[key] == s.chunks[key])
    && Says(t.chunks[(id, 0)], words, text, ai)
    && t.chunks[(id, 0)].owner == if (id, 0) in s.chunks then s.chunks[(id, 0)].owner else s.items[id].owner
  }

  /** Row `id` is completed: nothing but kind, words, verdict and clock differ from what it was. */
  predicate IsCompleted(s: Store, t: Store, id: ItemId, kind: ContentType, words: Details, ai: AiReading)
    requires id in s.items
  {
    && ai.AiRead? && id in t.items && HasReading(t.items[id].details, words, ai)
    && t.items[id].status.Completed? && t.items[id].retryCount == 0
    && t.items[id].kind == kind && t.items[id].updatedAt == s.now
    && t.items[id].owner == s.items[id].owner && t.items[id].sourceUrl == s.items[id].sourceUrl
    && t.items[id].deletedAt == s.items[id].deletedAt && t.items[id].purgedAt == s.items[id].purgedAt
  }

  /** Row `id` has failed with `reason` and one more try on its count. */
  predicate IsFailed(s: Store, t: Store, id: ItemId, kind: ContentType, reason: string)
    requires id in s.items
  {
    && id in t.items && t.items[id].status.Failed? && t.items[id].error == Some(reason)
    && t.items[id].retryCount == s.items[id].retryCount + 1
    && t.items[id].kind == kind && t.items[id].updatedAt == s.now
    && t.items[id].owner == s.items[id].owner && t.items[id].sourceUrl == s.items[id].sourceUrl
    && t.items[id].deletedAt == s.items[id].deletedAt && t.items[id].purgedAt == s.items[id].purgedAt
  }

  /** Row `id` was set aside. */
  predicate IsSkipped(s: Store, t: Store, id: ItemId, kind: ContentType, words: Details)
    requires id in s.items
  {
    && t.items == s.items[id := s.items[id].(kind := kind, details := words, status := Skipped, error := None,
                                             retryCount := 0, updatedAt := s.now)]
    && t.chunks == s.chunks && t.runs == s.runs && t.queue == s.queue
  }

  predicate OnlyRow(s: Store, t: Store, id: ItemId) {
    && t.items.Keys == s.items.Keys && t.queue == s.queue && t.now == s.now
    && forall other | other in s.items && other != id :: t.items[other] == s.items[other]
  }

  /**
   How reading a memory whose words are `words` ends: it completes when there is text and every call
   answers, and otherwise fails with what went wrong and raises, keeping what was written by then.
   */
  ghost predicate ReadingEnds(s: Store, t: Store, raised: bool, id: ItemId, kind: ContentType, words: Details,
                              error: Option<string>, ai: AiReading)
    requires id in s.items
  {
    && OnlyRow(s, t, id)
    && exists text: string :: IsReadAs(words, text) && ReadingOf(s, t, raised, id, kind, words, text, error, ai)
  }

  predicate ReadingOf(s: Store, t: Store, raised: bool, id: ItemId, kind: ContentType, words: Details, text: string,
                      error: Option<string>, ai: AiReading)
    requires id in s.items && id in t.items
  {
    if Blank(text) then
      && raised && IsFailed(s, t, id, kind, "No content extracted to process")
      && t.items[id].details == words && t.chunks == s.chunks
    else match ai
      case AiFault(reason) =>
        raised && IsFailed(s, t, id, kind, reason) && t.items[id].details == words && t.chunks == s.chunks
      case AiRead(_, _, _, _, _, Err(reason)) =>
        && raised && IsFailed(s, t, id, kind, reason)
        && HasReading(t.items[id].details, words, ai) && t.chunks == s.chunks
      case AiRead(_, _, _, _, _, Ok(_)) =>
        && !raised && IsCompleted(s, t, id, kind, words, ai) && t.items[id].error == error
        && HasChunk(s, t, id, words, text, ai)
  }

  lemma EnrichedEnds(s: Store, id: ItemId, item: Item, ai: AiReading)
    requires id in s.items
    requires item == s.items[id].(kind := item.kind, details := item.details,
                                  status := item.status, error := item.error)
    ensures var o := Enriched(s, id, item, ai);
            && ReadingEnds(s, o.store, o.raised, id, item.kind, item.details, item.error, ai)
            && o.store.runs == s.runs && o.run.None?
  {
    var text, o := ReadableText(item), Enriched(s, id, item, ai);
    assert IsReadAs(item.details, text);
    assert ReadingOf(s, o.store, o.raised, id, item.kind, item.details, text, item.error, ai);
  }

  // ---- one processing ----

  /** Nothing but the row, its chunk and the verdict: no run, no message. */
  predicate NoRun(s: Store, o: Outcome) {
    o.store.runs == s.runs && o.run.None?
  }

  /** The row failed before it was read: its words stay. */
  predicate FailsUnread(s: Store, t: Store, raised: bool, id: ItemId, fault: Fault)
    requires id in s.items
  {
    && OnlyRow(s, t, id) && IsFailed(s, t, id, s.items[id].kind, fault.reason)
    && t.items[id].details == s.items[id].details && t.chunks == s.chunks
    && raised == !fault.permanent
  }

  /** What a delivered `process` leaves of a live memory, by what the outside answered. */
  ghost predicate ProcessEnds(s: Store, o: Outcome, id: ItemId, r: Readings)
    requires id in s.items
  {
    var item := s.items[id];
    if Present(item.sourceUrl) then
      match r.extraction
      case ExtractFailed(fault) => NoRun(s, o) && FailsUnread(s, o.store, o.raised, id, fault)
      case Deferred(run) =>
        if run in s.runs then o == Outcome(s, true, None)
        else
          && !o.raised && o.run == Some(run)
          && o.store == s.(items := s.items[id := item.(status := Processing, error := None, updatedAt := s.now)],
                           runs := s.runs[run := Run(id, Running, None, None, s.now, None)])
      case Extracted(kind, words, true) =>
        NoRun(s, o) && ReadingEnds(s, o.store, o.raised, id, kind, words, None, r.ai)
      case Extracted(kind, words, false) => IsSkipped(s, o.store, id, kind, words) && !o.raised && o.run.None?
    else if (item.kind.Voice? || item.kind.Image?) && !Present(item.details.content) then
      match r.media
      case ReadText(content) =>
        var words := item.details.(content := Some(content));
        NoRun(s, o) && ReadingEnds(s, o.store, o.raised, id, item.kind, words, None, r.ai)
      case MediaFault(reason) => NoRun(s, o) && FailsUnread(s, o.store, o.raised, id, Fault(false, reason))
      case _ => IsSkipped(s, o.store, id, item.kind, item.details) && !o.raised && o.run.None?
    else NoRun(s, o) && ReadingEnds(s, o.store, o.raised, id, item.kind, item.details, None, r.ai)
  }

  lemma ProcessLeaves(s: Store, id: ItemId, r: Readings)
    ensures if Live(s.items, id) then ProcessEnds(s, Processed(s, id, r), id, r)
            else Processed(s, id, r) == Outcome(s, false, None)
  {
    if Live(s.items, id) {
      var item := s.items[id].(status := Processing, error := None);
      if Present(item.sourceUrl) {
        if r.extraction.Extracted? && r.extraction.enrich {
          EnrichedEnds(s, id, item.(kind := r.extraction.kind, details := r.extraction.details), r.ai);
        }
      } else if NeedsMedia(item) {
        if r.media.ReadText? {
          EnrichedEnds(s, id, item.(details := item.details.(content := Some(r.media.content))), r.ai);
        }
      } else {
        EnrichedEnds(s, id, item, r.ai);
      }
    }
  }

  // ---- one run ----

  /** How finishing a memory from its payload ends: left alone when missing or completed, else failed or read. */
  ghost predicate FinishEnds(s: Store, t: Store, raised: bool, id: ItemId, payload: Payload, ai: AiReading) {
    if !Live(s.items, id) || s.items[id].status.Completed? then
      t.items == s.items && t.chunks == s.chunks && !raised
    else match payload
      case BuildFailed(fault) => FailsUnread(s, t, raised, id, fault)
      case Built(kind, words) => ReadingEnds(s, t, raised, id, kind, words, s.items[id].error, ai)
  }

  lemma FinishLeaves(s: Store, id: ItemId, payload: Payload, ai: AiReading)
    ensures var o := Finalized(s, id, payload, ai);
            FinishEnds(s, o.store, o.raised, id, payload, ai) && o.store.runs == s.runs && o.store.queue == s.queue
  {
    if Live(s.items, id) && payload.Built? {
      EnrichedEnds(s, id, s.items[id].(kind := payload.kind, details := payload.details), ai);
    }
  }

  /** The run's memory fails with `reason` unless it is gone or completed. */
  predicate GivesUp(s: Store, t: Store, id: ItemId, reason: string) {
    && t.chunks == s.chunks && t.queue == s.queue
    && if !Live(s.items, id) || s.items[id].status.Completed? then t.items == s.items
       else OnlyRow(s, t, id) && IsFailed(s, t, id, s.items[id].kind, reason)
            && t.items[id].details == s.items[id].details
  }

  /** The run's row carries its verdict, at most 500 characters of reason, and the time it ended. */
  predicate RunEndsAs(s: Store, t: Store, run: RunId, status: RunStatus,
                      dataset: Option<string>, reason: Option<string>)
    requires run in s.runs
  {
    && t.runs.Keys == s.runs.Keys && (forall other | other in s.runs && other != run :: t.runs[other] == s.runs[other])
    && t.runs[run].item == s.runs[run].item && t.runs[run].createdAt == s.runs[run].createdAt
    && t.runs[run].status == status && t.runs[run].datasetId == dataset && t.runs[run].finishedAt == Some(s.now)
    && match reason
       case None => t.runs[run].error.None?
       case Some(text) =>
         t.runs[run].error.Some? && t.runs[run].error.value <= text && |t.runs[run].error.value| == Min(500, |text|)
  }

  predicate IsEnding(a: Answer, reason: string) {
    a.Answer? && reason == "Apify run ended as " + if a.status == "" then "UNKNOWN" else a.status
  }

  /** What a webhook's task leaves. */
  ghost predicate CallbackEnds(s: Store, t: Store, raised: bool, run: RunId, a: Answer) {
    if run !in s.runs || !s.runs[run].status.Running? then t == s && !raised
    else if a.LookupFailed? then t == s && raised
    else if a.status == "SUCCEEDED" && Present(a.dataset) then
      var id := s.runs[run].item;
      if !Live(s.items, id) || !Present(s.items[id].sourceUrl) || a.payload.None? then t == s && raised
      else
        && FinishEnds(s, t, raised, id, a.payload.value, a.ai)
        && RunEndsAs(s, t, run, Succeeded, a.dataset, None) && t.queue == s.queue
    else
      && !raised && exists reason: string ::
           && IsEnding(a, reason) && GivesUp(s, t, s.runs[run].item, reason)
           && RunEndsAs(s, t, run, RunFailed, s.runs[run].datasetId, Some(reason))
  }

  lemma CallbackLeaves(s: Store, run: RunId, a: Answer)
    ensures var o := RunFinalized(s, run, a); CallbackEnds(s, o.store, o.raised, run, a) && o.run.None?
  {
    if run in s.runs && s.runs[run].status.Running? && a.Answer? {
      var id := s.runs[run].item;
      if HasDataset(a) && Fetchable(s, id, a) {
        FinishWithDataset(s, run, a);
      } else if !HasDataset(a) {
        assert IsEnding(a, EndedAs(a));
      }
    }
  }

  lemma FinishWithDataset(s: Store, run: RunId, a: Answer)
    requires run in s.runs && HasDataset(a) && a.payload.Some?
    ensures var id := s.runs[run].item;
            var done := Finalized(WithDataset(s, run, a.dataset.value), id, a.payload.value, a.ai);
            var t := Marked(done.store, run, Succeeded, None);
            && run in done.store.runs && FinishEnds(s, t, done.raised, id, a.payload.value, a.ai)
            && RunEndsAs(s, t, run, Succeeded, a.dataset, None) && t.queue == s.queue
  {
    var id := s.runs[run].item;
    var before := WithDataset(s, run, a.dataset.value);
    FinishLeaves(before, id, a.payload.value, a.ai);
    var done := Finalized(before, id, a.payload.value, a.ai);
    var t := Marked(done.store, run, Succeeded, None);
    SameReading(s, t, before, done.store, done.raised, id, a.payload.value, a.ai);
  }

  /** A reading sees no run. */
  lemma SameReading(s: Store, t: Store, s': Store, t': Store, raised: bool, id: ItemId, payload: Payload, ai: AiReading)
    requires s' == s.(runs := s'.runs) && t' == t.(runs := t'.runs)
    requires FinishEnds(s', t', raised, id, payload, ai)
    ensures FinishEnds(s, t, raised, id, payload, ai)
  {
    if Live(s.items, id) && !s.items[id].status.Completed? && payload.Built? {
      var kind, words, error := payload.kind, payload.details, s.items[id].error;
      var text: string :| IsReadAs(words, text) && ReadingOf(s', t', raised, id, kind, words, text, error, ai);
      assert ReadingOf(s, t, raised, id, kind, words, text, error, ai);
    }
  }

  /** What one run of a stale tick leaves, when it does not abort the tick. */
  ghost predicate RescueEnds(s: Store, t: Store, run: RunId, a: Answer)
    requires run in s.runs
  {
    if a.LookupFailed? || a.status == "READY" || a.status == "RUNNING" then t == s
    else if a.status == "SUCCEEDED" && Present(a.dataset) then
      && a.payload.Some? && FinishEnds(s, t, false, s.runs[run].item, a.payload.value, a.ai)
      && RunEndsAs(s, t, run, Succeeded, a.dataset, None) && t.queue == s.queue
    else
      exists reason: string ::
        && IsEnding(a, reason) && GivesUp(s, t, s.runs[run].item, reason + " (no callback received)")
        && RunEndsAs(s, t, run, TimedOut, s.runs[run].datasetId, Some(reason + " (no callback received)"))
  }

  lemma TimesOut(s: Store, run: RunId, a: Answer)
    requires run in s.runs && Terminal(a) && !HasDataset(a)
    ensures RescueEnds(s, SweptRun(s, run, a).store, run, a)
  {
    var t, reason := SweptRun(s, run, a).store, EndedAs(a);
    assert IsEnding(a, reason) && GivesUp(s, t, s.runs[run].item, reason + " (no callback received)");
  }

  lemma Rescued(s: Store, run: RunId, a: Answer)
    requires run in s.runs && HasDataset(a) && SweptRun(s, run, a).Rescue?
    ensures RescueEnds(s, SweptRun(s, run, a).store, run, a)
  {
    FinishWithDataset(s, run, a);
  }

  lemma RescueLeaves(s: Store, run: RunId, a: Answer)
    requires run in s.runs && SweptRun(s, run, a).Rescue?
    ensures RescueEnds(s, SweptRun(s, run, a).store, run, a)
    ensures SweptRun(s, run, a).rescued == if Terminal(a) then 1 else 0
  {
    if HasDataset(a) {
      Rescued(s, run, a);
    } else if Terminal(a) {
      TimesOut(s, run, a);
    }
  }

  // ---- one tick ----

  ghost predicate TickStates(states: seq<Store>, stale: seq<RunId>, answers: map<RunId, Answer>) {
    && |states| == |stale| + 1
    && forall i | 0 <= i < |stale| ::
         stale[i] in states[i].runs && RescueEnds(states[i], states[i + 1], stale[i], Ask(answers, stale[i]))
  }

  function Ended(stale: seq<RunId>, answers: map<RunId, Answer>): set<RunId> {
    set run | run in stale && Terminal(Ask(answers, run))
  }

  lemma EndedSplit(first: RunId, rest: seq<RunId>, answers: map<RunId, Answer>)
    requires first !in rest
    ensures |Ended([first] + rest, answers)| ==
            |Ended(rest, answers)| + if Terminal(Ask(answers, first)) then 1 else 0
  {
    assert Ended([first] + rest, answers) ==
           Ended(rest, answers) + if Terminal(Ask(answers, first)) then {first} else {};
  }

  /** A committed tick rescues its runs one after another, and counts those the provider says are over. */
  lemma {:induction false} TickLeaves(s: Store, stale: seq<RunId>, answers: map<RunId, Answer>)
    returns (states: seq<Store>)
    requires Distinct(stale) && forall run | run in stale :: run in s.runs
    requires StaleSwept(s, stale, answers).Rescue?
    ensures TickStates(states, stale, answers)
    ensures states[0] == s && states[|stale|] == StaleSwept(s, stale, answers).store
    ensures StaleSwept(s, stale, answers).rescued == |Ended(stale, answers)|
    decreases |stale|
  {
    if stale == [] {
      states := [s];
      assert Ended(stale, answers) == {};
    } else {
      var first := SweptRun(s, stale[0], Ask(answers, stale[0]));
      RescueLeaves(s, stale[0], Ask(answers, stale[0]));
      var rest := TickLeaves(first.store, stale[1..], answers);
      states := [s] + rest;
      assert stale == [stale[0]] + stale[1..];
      EndedSplit(stale[0], stale[1..], answers);
    }
  }

  // ---- a completed memory has been read ----

  /** The row and its chunk say what the model answered about `words`. */
  ghost predicate IsRead(t: Store, id: ItemId, words: Details, ai: AiReading) {
    && ai.AiRead? && ai.vector.Ok?
    && id in t.items && t.items[id].status.Completed? && HasReading(t.items[id].details, words, ai)
    && (id, 0) in t.chunks
    && exists text: string :: IsReadAs(words, text) && !Blank(text) && Says(t.chunks[(id, 0)], words, text, ai)
  }

  lemma CompletedIsRead(s: Store, t: Store, raised: bool, id: ItemId, kind: ContentType, words: Details,
                        error: Option<string>, ai: AiReading)
    requires id in s.items && ReadingEnds(s, t, raised, id, kind, words, error, ai)
    requires t.items[id].status.Completed?
    ensures IsRead(t, id, words, ai)
  {
    var text: string :| IsReadAs(words, text) && ReadingOf(s, t, raised, id, kind, words, text, error, ai);
    assert Says(t.chunks[(id, 0)], words, text, ai);
  }

  predicate FromPayload(a: Answer, words: Details, ai: AiReading) {
    a.Answer? && a.payload.Some? && a.payload.value.Built? && words == a.payload.value.details && ai == a.ai
  }

  /** The words a delivered `process` reads, and the answer it gets. */
  predicate FromProcess(item: Item, r: Readings, words: Details, ai: AiReading) {
    && ai == r.ai
    && if Present(item.sourceUrl) then r.extraction.Extracted? && words == r.extraction.details
       else if (item.kind.Voice? || item.kind.Image?) && !Present(item.details.content) then
         r.media.ReadText? && words == item.details.(content := Some(r.media.content))
       else words == item.details
  }

  lemma FinishedIsRead(s: Store, t: Store, raised: bool, id: ItemId, a: Answer)
    requires a.Answer? && a.payload.Some? && FinishEnds(s, t, raised, id, a.payload.value, a.ai)
    requires id in s.items && !s.items[id].status.Completed? && id in t.items && t.items[id].status.Completed?
    ensures a.payload.value.Built? && IsRead(t, id, a.payload.value.details, a.ai)
  {
    var payload := a.payload.value;
    if payload.Built? {
      CompletedIsRead(s, t, raised, id, payload.kind, payload.details, s.items[id].error, a.ai);
    }
  }

  /** Nothing a tick does to other runs changes what a completed memory says. */
  lemma RescueKeepsRead(s: Store, t: Store, run: RunId, a: Answer, id: ItemId, words: Details, ai: AiReading)
    requires run in s.runs && RescueEnds(s, t, run, a) && IsRead(s, id, words, ai)
    ensures IsRead(t, id, words, ai)
  {
    assert t.items[id] == s.items[id] && (id, 0) in t.chunks && t.chunks[(id, 0)] == s.chunks[(id, 0)];
  }

  lemma RescuedIsRead(s: Store, t: Store, run: RunId, a: Answer, id: ItemId)
    requires run in s.runs && RescueEnds(s, t, run, a)
    requires id in s.items && !s.items[id].status.Completed? && id in t.items && t.items[id].status.Completed?
    ensures s.runs[run].item == id && a.Answer? && a.payload.Some? && a.payload.value.Built?
    ensures IsRead(t, id, a.payload.value.details, a.ai)
  {
    if a.Answer? && a.payload.Some? && s.runs[run].item == id {
      FinishedIsRead(s, t, false, id, a);
    }
  }

  lemma {:induction false} TickedIsRead(states: seq<Store>, stale: seq<RunId>, answers: map<RunId, Answer>, n: nat,
                                        id: ItemId) returns (run: RunId)
    requires TickStates(states, stale, answers) && n <= |stale|
    requires id in states[0].items && !states[0].items[id].status.Completed?
    requires id in states[n].items && states[n].items[id].status.Completed?
    ensures run in stale && run in states[0].runs && states[0].runs[run].item == id
    ensures var a := Ask(answers, run);
            && a.Answer? && a.payload.Some? && a.payload.value.Built?
            && IsRead(states[n], id, a.payload.value.details, a.ai)
  {
    var before, a := states[n - 1], Ask(answers, stale[n - 1]);
    TickKeepsKeys(states, stale, answers, n - 1);
    if before.items[id].status.Completed? {
      run := TickedIsRead(states, stale, answers, n - 1, id);
      var earlier := Ask(answers, run);
      RescueKeepsRead(before, states[n], stale[n - 1], a, id, earlier.payload.value.details, earlier.ai);
    } else {
      run := stale[n - 1];
      RescuedIsRead(before, states[n], run, a, id);
    }
  }

  lemma {:induction false} TickKeepsKeys(states: seq<Store>, stale: seq<RunId>, answers: map<RunId, Answer>, n: nat)
    requires TickStates(states, stale, answers) && n <= |stale|
    ensures states[n].items.Keys == states[0].items.Keys && states[n].runs.Keys == states[0].runs.Keys
    ensures forall run | run in states[0].runs :: states[n].runs[run].item == states[0].runs[run].item
  {
    if n > 0 {
      TickKeepsKeys(states, stale, answers, n - 1);
      RescueKeepsKeys(states[n - 1], states[n], stale[n - 1], Ask(answers, stale[n - 1]));
    }
  }

  lemma RescueKeepsKeys(s: Store, t: Store, run: RunId, a: Answer)
    requires run in s.runs && RescueEnds(s, t, run, a)
    ensures t.items.Keys == s.items.Keys && t.runs.Keys == s.runs.Keys
    ensures forall other | other in s.runs :: t.runs[other].item == s.runs[other].item
  {
  }

  /** What the step read, and what the model answered about it. */
  ghost predicate Answered(s: Store, step: Step, id: ItemId, words: Details, ai: AiReading) {
    match step
    case Deliver(index, _, r, a) =>
      index < |s.queue| &&
      (match s.queue[index]
       case ProcessItem(item, _) => item == id && id in s.items && FromProcess(s.items[id], r, words, ai)
       case FinalizeRun(run, _) => run in s.runs && s.runs[run].item == id && FromPayload(a, words, ai))
    case SweepStaleRuns(stale, answers) =>
      exists run | run in stale :: run in s.runs && s.runs[run].item == id && FromPayload(Ask(answers, run), words, ai)
    case _ => false
  }

  ghost predicate ReadFrom(s: Store, step: Step, t: Store, id: ItemId, words: Details, ai: AiReading) {
    Answered(s, step, id, words, ai) && IsRead(t, id, words, ai)
  }

  lemma ProcessedIsRead(s: Store, item: ItemId, r: Readings, id: ItemId) returns (words: Details)
    requires id in s.items && !s.items[id].status.Completed?
    requires var t := Processed(s, item, r).store; id in t.items && t.items[id].status.Completed?
    ensures item == id && FromProcess(s.items[id], r, words, r.ai)
    ensures IsRead(Processed(s, item, r).store, id, words, r.ai)
  {
    ProcessLeaves(s, item, r);
    var o, row := Processed(s, item, r), s.items[id];
    assert item == id;
    words := if Present(row.sourceUrl) then (if r.extraction.Extracted? then r.extraction.details else row.details)
             else if (row.kind.Voice? || row.kind.Image?) && !Present(row.details.content) then
               (if r.media.ReadText? then row.details.(content := Some(r.media.content)) else row.details)
             else row.details;
    var kind := if Present(row.sourceUrl) && r.extraction.Extracted? then r.extraction.kind else row.kind;
    CompletedIsRead(s, o.store, o.raised, id, kind, words, None, r.ai);
  }

  lemma CalledBackIsRead(s: Store, run: RunId, a: Answer, id: ItemId)
    requires id in s.items && !s.items[id].status.Completed?
    requires var t := RunFinalized(s, run, a).store; id in t.items && t.items[id].status.Completed?
    ensures run in s.runs && s.runs[run].item == id && a.Answer? && a.payload.Some? && a.payload.value.Built?
    ensures IsRead(RunFinalized(s, run, a).store, id, a.payload.value.details, a.ai)
  {
    CallbackLeaves(s, run, a);
    var o := RunFinalized(s, run, a);
    FinishedIsRead(s, o.store, o.raised, id, a);
  }

  lemma {:induction false} PurgedRowsStatus(s: Store, rows: seq<ItemId>, id: ItemId)
    requires (forall other | other in rows :: other in s.items) && id in s.items
    ensures PurgedRows(s, rows).items[id].status == s.items[id].status
  {
    if rows != [] {
      PurgedRowsStatus(s, rows[..|rows| - 1], id);
    }
  }

  lemma DeliveryIsRead(s: Store, step: Step, id: ItemId)
    requires Legal(s, step) && step.Deliver? && id in s.items && !s.items[id].status.Completed?
    requires id in Next(s, step).items && Next(s, step).items[id].status.Completed?
    ensures exists words, ai :: ReadFrom(s, step, Next(s, step), id, words, ai)
  {
    var r, a := step.readings, step.answer;
    var taken := if step.acked then s.(queue := s.queue[..step.index] + s.queue[step.index + 1..]) else s;
    match s.queue[step.index]
    case ProcessItem(item, _) =>
      var words := ProcessedIsRead(taken, item, r, id);
      assert ReadFrom(s, step, Next(s, step), id, words, r.ai);
    case FinalizeRun(run, _) =>
      CalledBackIsRead(taken, run, a, id);
      assert ReadFrom(s, step, Next(s, step), id, a.payload.value.details, a.ai);
  }

  lemma TickIsRead(s: Store, step: Step, id: ItemId)
    requires Legal(s, step) && step.SweepStaleRuns? && id in s.items && !s.items[id].status.Completed?
    requires id in Next(s, step).items && Next(s, step).items[id].status.Completed?
    ensures exists words, ai :: ReadFrom(s, step, Next(s, step), id, words, ai)
  {
    assert forall run | run in step.stale :: run in Stale(s);
    var states := TickLeaves(s, step.stale, step.answers);
    var run := TickedIsRead(states, step.stale, step.answers, |step.stale|, id);
    var a := Ask(step.answers, run);
    assert FromPayload(a, a.payload.value.details, a.ai);
    assert ReadFrom(s, step, Next(s, step), id, a.payload.value.details, a.ai);
  }

  lemma OnlyTasksComplete(s: Store, step: Step, id: ItemId)
    requires Legal(s, step) && id in s.items && !s.items[id].status.Completed?
    requires !step.Deliver? && !step.SweepStaleRuns?
    ensures id in Next(s, step).items && !Next(s, step).items[id].status.Completed?
  {
    if step.PurgeExpired? {
      assert forall other | other in step.rows :: other in ExpiredTrash(s);
      PurgedRowsStatus(s, step.rows, id);
    }
  }

  /**
   Whichever step completes a memory, the row and its chunk then say what the model answered in that
   step about the words that step read: the five columns, the vector, and the first 8000 characters
   of title, summary and text; the other words are the extraction's or the payload's own.
   */
  lemma NewlyCompletedIsRead(s: Store, step: Step, id: ItemId)
    requires Legal(s, step) && id in s.items && !s.items[id].status.Completed?
    requires id in Next(s, step).items && Next(s, step).items[id].status.Completed?
    ensures exists words, ai :: ReadFrom(s, step, Next(s, step), id, words, ai)
  {
    if step.Deliver? {
      DeliveryIsRead(s, step, id);
    } else if step.SweepStaleRuns? {
      TickIsRead(s, step, id);
    } else {
      OnlyTasksComplete(s, step, id);
    }
  }

  // ---- what the sweeps list ----

  ghost predicate HasRunningRun(s: Store, id: ItemId) {
    exists run | run in s.runs :: s.runs[run].status.Running? && s.runs[run].item == id
  }

  /** In this status for longer than `seconds`, live, and waiting for no run. */
  ghost predicate IsStuck(s: Store, id: ItemId, status: ProcessingStatus, seconds: nat) {
    && id in s.items && s.items[id].status == status && s.items[id].updatedAt + seconds < s.now
    && s.items[id].deletedAt.None? && !HasRunningRun(s, id)
  }

  /** The listing holds stuck rows, each once, the longest untouched first: all of them, or a hundred. */
  ghost predicate ListsStuck(s: Store, rows: seq<ItemId>, status: ProcessingStatus, seconds: nat) {
    && Distinct(rows) && |rows| <= 100
    && (forall id | id in rows :: id in s.items) && (forall id | id in rows :: IsStuck(s, id, status, seconds))
    && (forall i, j | 0 <= i < j < |rows| :: s.items[rows[i]].updatedAt <= s.items[rows[j]].updatedAt)
    && (forall id | IsStuck(s, id, status, seconds) && id !in rows ::
          |rows| == 100 && forall row | row in rows :: s.items[row].updatedAt <= s.items[id].updatedAt)
  }

  lemma ListingMeans(s: Store, rows: seq<ItemId>, status: ProcessingStatus, seconds: nat)
    requires IsStrandedListing(s, status, seconds, rows)
    ensures ListsStuck(s, rows, status, seconds)
  {
    var stuck := Stranded(s, status, seconds);
    forall id
      ensures id in stuck <==> IsStuck(s, id, status, seconds)
    {
    }
    if |rows| < 100 {
      DistinctCardinality(rows);
      var listed := set x | x in rows;
      SubsetCardinality(listed, stuck);
    }
  }

  /** Pending rows are swept after ten minutes, processing ones after fifteen, and runs asked about after twenty. */
  lemma SweepsListWhat(s: Store, step: Step)
    requires Legal(s, step)
    ensures step.SweepStrandedItems? ==>
              ListsStuck(s, step.pending, Pending, 600) && ListsStuck(s, step.processing, Processing, 900)
    ensures step.SweepStaleRuns? ==>
              && Distinct(step.stale) && |step.stale| <= 50
              && forall run | run in step.stale ::
                   run in s.runs && s.runs[run].status.Running? && s.runs[run].createdAt + 1200 < s.now
  {
    match step
    case SweepStrandedItems(pending, _, processing) =>
      ListingMeans(s, pending, Pending, STUCK_PENDING_SECONDS);
      ListingMeans(s, processing, Processing, STUCK_PROCESSING_SECONDS);
    case SweepStaleRuns(stale, _) => assert forall run | run in stale :: run in Stale(s);
    case _ =>
  }

  // ---- the stranded sweep ----

  /** The sweep still re-drives this row, and the broker took the message. */
  predicate Redriven(s: Store, pending: seq<ItemId>, accepted: set<ItemId>, i: nat) {
    i < |pending| && pending[i] in s.items && s.items[pending[i]].retryCount < 3 && pending[i] in accepted
  }

  /** The messages are one fresh `process` for each such row, in listing order, and no other. */
  ghost predicate SentFor(sent: seq<Message>, s: Store, pending: seq<ItemId>, accepted: set<ItemId>, places: seq<nat>) {
    && |places| == |sent| && Increasing(places)
    && (forall n | 0 <= n < |sent| ::
          Redriven(s, pending, accepted, places[n]) && sent[n] == ProcessItem(pending[places[n]], 3))
    && (forall i: nat | Redriven(s, pending, accepted, i) :: i in places)
  }

  lemma OneMoreSent(sent: seq<Message>, s: Store, front: seq<ItemId>, last: ItemId, accepted: set<ItemId>,
                    earlier: seq<nat>)
    requires SentFor(sent, s, front, accepted, earlier)
    ensures if Redriven(s, front + [last], accepted, |front|)
            then SentFor(sent + [ProcessItem(last, 3)], s, front + [last], accepted, earlier + [|front|])
            else SentFor(sent, s, front + [last], accepted, earlier)
  {
    var pending, places := front + [last], earlier + [|front|];
    forall i: nat
      ensures i < |front| ==> (Redriven(s, pending, accepted, i) <==> Redriven(s, front, accepted, i))
    {
      assert i < |front| ==> pending[i] == front[i];
    }
    assert forall i | i in earlier :: i in places;
    assert places[|earlier|] == |front| && pending[|front|] == last;
    forall n | 0 <= n < |sent|
      ensures Redriven(s, pending, accepted, earlier[n]) && sent[n] == ProcessItem(pending[earlier[n]], 3)
    {
      assert Redriven(s, front, accepted, earlier[n]);
    }
  }

  lemma {:induction false} RequeuedAreSent(s: Store, pending: seq<ItemId>, accepted: set<ItemId>)
    returns (places: seq<nat>)
    requires forall id | id in pending :: id in s.items
    ensures SentFor(Requeued(s.items, pending, accepted), s, pending, accepted, places)
  {
    if pending == [] {
      places := [];
    } else {
      var front, last := pending[..|pending| - 1], pending[|pending| - 1];
      assert pending == front + [last];
      places := RequeuedAreSent(s, front, accepted);
      OneMoreSent(Requeued(s.items, front, accepted), s, front, last, accepted, places);
      if Redriven(s, pending, accepted, |front|) {
        places := places + [|front|];
      } else {
        assert Requeued(s.items, pending, accepted) == Requeued(s.items, front, accepted) + [];
      }
    }
  }

  function Redrivable(items: Items, pending: seq<ItemId>, accepted: set<ItemId>): set<ItemId> {
    set id | id in pending && id in items && items[id].retryCount < 3 && id in accepted
  }

  function Spent(items: Items, pending: seq<ItemId>): set<ItemId> {
    set id | id in pending && id in items && items[id].retryCount >= 3
  }

  lemma RedrivableSplit(items: Items, front: seq<ItemId>, last: ItemId, accepted: set<ItemId>)
    requires last !in front && last in items
    ensures |Redrivable(items, front + [last], accepted)| ==
            |Redrivable(items, front, accepted)| + if items[last].retryCount < 3 && last in accepted then 1 else 0
  {
    assert Redrivable(items, front + [last], accepted) ==
           Redrivable(items, front, accepted) + if items[last].retryCount < 3 && last in accepted then {last} else {};
  }

  lemma SpentSplit(items: Items, front: seq<ItemId>, last: ItemId)
    requires last !in front && last in items
    ensures |Spent(items, front + [last])| == |Spent(items, front)| + if items[last].retryCount >= 3 then 1 else 0
  {
    assert Spent(items, front + [last]) == Spent(items, front) + if items[last].retryCount >= 3 then {last} else {};
  }

  lemma {:induction false} RequeuedCount(items: Items, pending: seq<ItemId>, accepted: set<ItemId>)
    requires Distinct(pending) && forall id | id in pending :: id in items
    ensures |Requeued(items, pending, accepted)| == |Redrivable(items, pending, accepted)|
    ensures Exhausted(items, pending) == |Spent(items, pending)|
  {
    if pending != [] {
      var front, last := pending[..|pending| - 1], pending[|pending| - 1];
      assert pending == front + [last] && last !in front;
      RequeuedCount(items, front, accepted);
      RedrivableSplit(items, front, last, accepted);
      SpentSplit(items, front, last);
    }
  }

  /** What the sweep leaves of each row it lists, and of every other. */
  predicate SweepLeavesRow(s: Store, t: Store, pending: seq<ItemId>, processing: seq<ItemId>, id: ItemId)
    requires id in s.items && id in t.items
  {
    var item := s.items[id];
    t.items[id] ==
      if id in pending && item.retryCount < 3 then item.(retryCount := item.retryCount + 1, updatedAt := s.now)
      else if id in pending then item.(status := Failed, error := Some(NEVER_QUEUED), updatedAt := s.now)
      else if id in processing then
        item.(status := Failed, error := Some(STOPPED_PARTWAY), retryCount := item.retryCount + 1, updatedAt := s.now)
      else item
  }

  /**
   A stranded sweep re-drives every listed pending row that has sweeps left and whose message the
   broker takes, once and in listing order, and sends nothing else; it counts the sweep on each such
   row, gives up the others, and fails the abandoned ones.
   */
  lemma SweepRedrives(s: Store, pending: seq<ItemId>, accepted: set<ItemId>, processing: seq<ItemId>)
    requires Legal(s, SweepStrandedItems(pending, accepted, processing))
    ensures var t := Next(s, SweepStrandedItems(pending, accepted, processing));
            && s.queue <= t.queue && t.runs == s.runs && t.chunks == s.chunks && t.now == s.now
            && (exists places :: SentFor(t.queue[|s.queue|..], s, pending, accepted, places))
            && t.items.Keys == s.items.Keys
            && (forall id | id in s.items :: SweepLeavesRow(s, t, pending, processing, id))
  {
    var t := Next(s, SweepStrandedItems(pending, accepted, processing));
    var places := RequeuedAreSent(s, pending, accepted);
    assert t.queue[|s.queue|..] == Requeued(s.items, pending, accepted);
    assert SentFor(t.queue[|s.queue|..], s, pending, accepted, places);
  }

  // ---- one delivery ----

  ghost predicate TaskEnds(s: Store, o: Outcome, message: Message, r: Readings, a: Answer) {
    match message
    case ProcessItem(id, _) => if Live(s.items, id) then ProcessEnds(s, o, id, r) else o == Outcome(s, false, None)
    case FinalizeRun(run, _) => CallbackEnds(s, o.store, o.raised, run, a)
  }

  /** An acknowledged message leaves the queue, and comes back with one try less if its task raised and it had one. */
  ghost predicate Redelivers(before: seq<Message>, after: seq<Message>, index: nat, acked: bool, raised: bool)
    requires index < |before|
  {
    var rest := if acked then before[..index] + before[index + 1..] else before;
    var again := raised && acked;
    after == match before[index]
             case ProcessItem(id, left) => rest + if again && left > 0 then [ProcessItem(id, left - 1)] else []
             case FinalizeRun(run, left) => rest + if again && left > 0 then [FinalizeRun(run, left - 1)] else []
  }

  /** What a delivery leaves is what its task leaves, and the queue as the broker keeps it. */
  lemma DeliveryLeaves(s: Store, index: nat, acked: bool, r: Readings, a: Answer)
    requires index < |s.queue|
    ensures exists o: Outcome ::
              var t := Next(s, Deliver(index, acked, r, a));
              && TaskEnds(s.(queue := o.store.queue), o, s.queue[index], r, a)
              && t == o.store.(queue := t.queue) && Redelivers(s.queue, t.queue, index, acked, o.raised)
  {
    var taken := if acked then s.(queue := s.queue[..index] + s.queue[index + 1..]) else s;
    var o := RunTask(taken, s.queue[index], r, a);
    match s.queue[index] {
      case ProcessItem(id, _) => ProcessLeaves(taken, id, r);
      case FinalizeRun(run, _) => CallbackLeaves(taken, run, a);
    }
    TaskKeepsQueue(taken, o, s.queue[index], r, a);
    assert taken == s.(queue := o.store.queue);
    assert taken.queue + [] == taken.queue;
  }

  lemma TaskKeepsQueue(s: Store, o: Outcome, message: Message, r: Readings, a: Answer)
    requires TaskEnds(s, o, message, r, a)
    ensures o.store.queue == s.queue
  {
  }

  // ---- what a person's request leaves ----

  /** The row may be processed once more: it ended without a reading, or it can be read again, and it has rested. */
  predicate MayReprocess(s: Store, user: UserId, id: ItemId, redo: bool) {
    && id in s.items && s.items[id].owner == user && s.items[id].deletedAt.None?
    && (|| s.items[id].status.Failed? || s.items[id].status.Skipped?
        || (s.items[id].status.Completed? && (redo || IsRecording(s.items[id]))))
    && s.items[id].updatedAt + 30 <= s.now
  }

  predicate IsRecording(item: Item) {
    item.kind.Voice? && item.details.storageKey.Some? && item.details.storageKey.value != ""
  }

  function Sent(id: ItemId, queued: bool): seq<Message> {
    if queued then [ProcessItem(id, 3)] else []
  }

  predicate InTrash(s: Store, user: UserId, id: ItemId) {
    && id in s.items && s.items[id].owner == user
    && s.items[id].deletedAt.Some? && s.items[id].purgedAt.None?
  }

  /** The purged row says nothing any more. */
  predicate IsScrubbed(before: Item, item: Item, now: Time) {
    && item == before.(sourceUrl := None, details := item.details, error := None,
                       purgedAt := Some(now), updatedAt := now,
                       deletedAt := if before.deletedAt.Some? then before.deletedAt else Some(now))
    && item.details == Details(None, None, None, [], None, None, [], None)
  }

  /** Every request changes exactly the row it is about, only where it may, and queues at most its own message. */
  lemma RequestLeaves(s: Store, step: Step)
    requires Legal(s, step)
    ensures var t := Next(s, step);
            match step
            case Callback(run) => t == s.(queue := s.queue + [FinalizeRun(run, 3)])
            case Capture(id, item, queued) =>
              t == s.(items := s.items[id := item.(updatedAt := s.now)], queue := s.queue + Sent(id, queued))
            case Reprocess(user, id, redo, queued) =>
              if MayReprocess(s, user, id, redo) then
                var words := s.items[id].details;
                t == s.(items := s.items[id := s.items[id].(
                          status := Pending, error := None, retryCount := 0, updatedAt := s.now,
                          details := if IsRecording(s.items[id]) then words.(content := None) else words)],
                        queue := s.queue + Sent(id, queued))
              else t == s
            case Trash(user, id) =>
              if id in s.items && s.items[id].owner == user && s.items[id].deletedAt.None?
              then t == s.(items := s.items[id := s.items[id].(deletedAt := Some(s.now), updatedAt := s.now)])
              else t == s
            case Restore(user, id) =>
              if InTrash(s, user, id)
              then t == s.(items := s.items[id := s.items[id].(deletedAt := None, updatedAt := s.now)])
              else t == s
            case Purge(user, id) =>
              if InTrash(s, user, id) then
                && t == s.(items := s.items[id := t.items[id]], chunks := t.chunks)
                && IsScrubbed(s.items[id], t.items[id], s.now)
                && (forall key :: key in t.chunks <==> key in s.chunks && key.0 != id)
                && (forall key | key in t.chunks :: t.chunks[key] == s.chunks[key])
              else t == s
            case Wait(seconds) => t == s.(now := s.now + seconds)
            case _ => true
  {
    assert s.queue + [] == s.queue;
  }

  /** The batch purge takes rows whose tombstone is older than 15 days, at most 200, and scrubs exactly those. */
  lemma PurgeBatchLeaves(s: Store, rows: seq<ItemId>)
    requires Legal(s, PurgeExpired(rows))
    ensures |rows| <= 200
    ensures var t := Next(s, PurgeExpired(rows));
            && t == s.(items := t.items, chunks := t.chunks) && t.items.Keys == s.items.Keys
            && (forall id | id in rows ::
                  && id in s.items && s.items[id].deletedAt.Some? && s.items[id].purgedAt.None?
                  && s.items[id].deletedAt.value + 15 * 24 * 3600 < s.now
                  && IsScrubbed(s.items[id], t.items[id], s.now))
            && (forall id | id in s.items && id !in rows :: t.items[id] == s.items[id])
            && (forall key :: key in t.chunks <==> key in s.chunks && key.0 !in rows)
            && (forall key | key in t.chunks :: t.chunks[key] == s.chunks[key])
  {
    assert forall id | id in rows :: id in ExpiredTrash(s);
    PurgedRowsLeave(s, rows);
  }

  lemma {:induction false} PurgedRowsLeave(s: Store, rows: seq<ItemId>)
    requires Distinct(rows) && forall id | id in rows :: id in s.items
    ensures var t := PurgedRows(s, rows);
            && t == s.(items := t.items, chunks := t.chunks) && t.items.Keys == s.items.Keys
            && (forall id | id in rows :: IsScrubbed(s.items[id], t.items[id], s.now))
            && (forall id | id in s.items && id !in rows :: t.items[id] == s.items[id])
            && (forall key :: key in t.chunks <==> key in s.chunks && key.0 !in rows)
            && (forall key | key in t.chunks :: t.chunks[key] == s.chunks[key])
  {
    if rows != [] {
      var front, last := rows[..|rows| - 1], rows[|rows| - 1];
      assert rows == front + [last] && last !in front;
      PurgedRowsLeave(s, front);
    }
  }
}
