/**
 The connection table inside the whole vault: every run of the vault is a history of the table's
 writers, so what holds over every history holds while the pipeline, the sweeps and the purges run.
 */
module SystemHistory {
  import opened Base
  import opened Rows
  import P = Protocol
  import opened Edges
  import H = EdgeHistory
  import D = Derivation
  import opened System

  // ---- one step ----

  /** The memories a step purges, in the order it purges them. */
  ghost predicate Purges(w: World, step: P.Step, gone: seq<ItemId>) {
    match step
    case Purge(user, id) =>
      var items := w.store.items;
      gone == if id in items && items[id].owner == user && items[id].deletedAt.Some? && items[id].purgedAt.None?
              then [id] else []
    case PurgeExpired(rows) => gone == rows
    case _ => gone == []
  }

  predicate Removals(w: World, gone: seq<ItemId>, events: seq<H.Event>) {
    && |events| == |gone|
    && forall i | 0 <= i < |gone| :: events[i] == H.Event(w.store.items, w.store.now, H.PurgeItem(gone[i]))
  }

  /** What a derivation with room proposes. */
  ghost function ProposedBy(w: World, id: ItemId, input: D.RecallInput, answer: D.JudgeAnswer): seq<Proposal>
    requires Live(w.store.items, id)
  {
    D.Decided(D.Recalled(input, 24 - |EdgesOf(w.graph.edges, w.store.items[id].owner, id)|), answer)
  }

  /** A derivation with room writes one batch, of what it decided over what it recalled. */
  ghost predicate Batch(w: World, id: ItemId, input: D.RecallInput, answer: D.JudgeAnswer, events: seq<H.Event>) {
    var items := w.store.items;
    if Live(items, id) && input.hasVector && |EdgesOf(w.graph.edges, items[id].owner, id)| < 24 then
      events == [H.Event(items, w.store.now, H.Suggest(items[id].owner, id, ProposedBy(w, id, input, answer)))]
    else events == []
  }

  /** What a step writes to the table: an edit is itself, a derivation one batch, a purge its removals. */
  ghost predicate Writes(w: World, a: Action, events: seq<H.Event>) {
    match a
    case Edit(edit) => events == [H.Event(w.store.items, w.store.now, edit)]
    case Derive(id, input, answer) => Batch(w, id, input, answer, events)
    case Vault(step) => exists gone: seq<ItemId> :: Purges(w, step, gone) && Removals(w, gone, events)
  }

  lemma {:induction false} RemovalsRemove(w: World, gone: seq<ItemId>, events: seq<H.Event>)
    requires Removals(w, gone, events)
    ensures H.After(w.graph, events) == w.graph.(edges := WithoutItems(w.graph.edges, set id | id in gone))
  {
    if gone == [] {
      assert WithoutItems(w.graph.edges, set id | id in gone) == w.graph.edges;
    } else {
      var front, last := gone[..|gone| - 1], gone[|gone| - 1];
      RemovalsRemove(w, front, events[..|events| - 1]);
      assert gone == front + [last];
      var before := WithoutItems(w.graph.edges, set id | id in front);
      assert WithoutItem(before, last) == WithoutItems(w.graph.edges, set id | id in gone);
    }
  }

  lemma PurgeWrites(w: World, step: P.Step) returns (events: seq<H.Event>)
    requires P.Legal(w.store, step)
    ensures Writes(w, Vault(step), events) && H.After(w.graph, events) == Next(w, Vault(step)).graph
  {
    var gone := match step
                case Purge(user, id) => if Restorable(w.store.items, user, id) then [id] else []
                case PurgeExpired(rows) => rows
                case _ => [];
    events := seq(|gone|, i requires 0 <= i < |gone| => H.Event(w.store.items, w.store.now, H.PurgeItem(gone[i])));
    RemovalsRemove(w, gone, events);
    assert PurgedBy(w.store, step) == set id | id in gone;
    assert Purges(w, step, gone) && Removals(w, gone, events);
  }

  lemma DerivedIs(w: World, id: ItemId, input: D.RecallInput, answer: D.JudgeAnswer)
    requires Live(w.store.items, id)
    ensures var owner := w.store.items[id].owner;
            D.Derived(w.graph, w.store.items, id, input, answer, w.store.now) ==
            if input.hasVector && |EdgesOf(w.graph.edges, owner, id)| < 24
            then SuggestedMany(w.graph, owner, id, ProposedBy(w, id, input, answer), w.store.now) else w.graph
  {
  }

  lemma DeriveWrites(w: World, id: ItemId, input: D.RecallInput, answer: D.JudgeAnswer) returns (events: seq<H.Event>)
    ensures Batch(w, id, input, answer, events)
    ensures H.After(w.graph, events) == D.Derived(w.graph, w.store.items, id, input, answer, w.store.now)
  {
    events := [];
    if Live(w.store.items, id) {
      DerivedIs(w, id, input, answer);
      if input.hasVector && |EdgesOf(w.graph.edges, w.store.items[id].owner, id)| < 24 {
        events := BatchWrites(w, w.store.items[id].owner, id, ProposedBy(w, id, input, answer));
      }
    }
  }

  lemma BatchWrites(w: World, owner: UserId, id: ItemId, ps: seq<Proposal>) returns (events: seq<H.Event>)
    ensures events == [H.Event(w.store.items, w.store.now, H.Suggest(owner, id, ps))]
    ensures H.After(w.graph, events) == SuggestedMany(w.graph, owner, id, ps, w.store.now)
  {
    events := OneEvent(w, H.Suggest(owner, id, ps));
  }

  lemma OneEvent(w: World, action: H.Action) returns (events: seq<H.Event>)
    ensures events == [H.Event(w.store.items, w.store.now, action)]
    ensures H.After(w.graph, events) == H.Next(w.graph, H.Event(w.store.items, w.store.now, action))
  {
    events := [H.Event(w.store.items, w.store.now, action)];
    assert events[..0] == [];
  }

  /** Every step moves the rows as the protocol does, and the table as its writers do. */
  lemma StepWrites(w: World, a: Action) returns (events: seq<H.Event>)
    requires Legal(w, a)
    ensures Writes(w, a, events) && Next(w, a).graph == H.After(w.graph, events)
    ensures Next(w, a).store == if a.Vault? then P.Next(w.store, a.step) else w.store
  {
    match a
    case Vault(step) => events := PurgeWrites(w, step);
    case Edit(edit) => events := OneEvent(w, edit);
    case Derive(id, input, answer) => events := DeriveWrites(w, id, input, answer);
  }

  // ---- a run ----

  /** The writes of all steps, one after another. */
  ghost function Flat(batches: seq<seq<H.Event>>): seq<H.Event> {
    if batches == [] then [] else Flat(batches[..|batches| - 1]) + batches[|batches| - 1]
  }

  /** What each step of the run wrote. */
  ghost predicate AreBatches(worlds: seq<World>, actions: seq<Action>, batches: seq<seq<H.Event>>) {
    && |worlds| == |actions| + 1 && |batches| == |actions|
    && (forall i | 0 <= i < |actions| :: Writes(worlds[i], actions[i], batches[i]))
  }

  lemma {:induction false} AfterBoth(g: Graph, a: seq<H.Event>, b: seq<H.Event>)
    ensures H.After(g, a + b) == H.After(H.After(g, a), b)
  {
    if b == [] {
      assert a + b == a;
    } else {
      AfterBoth(g, a, b[..|b| - 1]);
      assert (a + b)[..|a + b| - 1] == a + b[..|b| - 1];
    }
  }

  lemma RunPrefix(worlds: seq<World>, actions: seq<Action>, n: nat)
    requires IsRun(worlds, actions) && n <= |actions|
    ensures IsRun(worlds[..n + 1], actions[..n])
  {
    var earlier, front := worlds[..n + 1], actions[..n];
    forall i | 0 <= i < n
      ensures Legal(earlier[i], front[i]) && earlier[i + 1] == Next(earlier[i], front[i])
    {
      assert earlier[i] == worlds[i] && earlier[i + 1] == worlds[i + 1] && front[i] == actions[i];
    }
  }

  /** Before step `n` the table is what the writes so far made of it. */
  ghost predicate Stands(worlds: seq<World>, batches: seq<seq<H.Event>>, n: nat) {
    n < |worlds| && n <= |batches| && worlds[n].graph == H.After(worlds[0].graph, Flat(batches[..n]))
  }

  lemma StandsOn(worlds: seq<World>, batches: seq<seq<H.Event>>, last: seq<H.Event>)
    requires |worlds| == |batches| + 2 && Stands(worlds[..|batches| + 1], batches, |batches|)
    requires worlds[|batches| + 1].graph == H.After(worlds[|batches|].graph, last)
    ensures Stands(worlds, batches + [last], |batches| + 1)
  {
    var all := batches + [last];
    assert all[..|batches|] == batches && batches[..|batches|] == batches && all[..|all|] == all;
    AfterBoth(worlds[0].graph, Flat(batches), last);
  }

  lemma StoodBefore(worlds: seq<World>, batches: seq<seq<H.Event>>, last: seq<H.Event>, n: nat)
    requires |worlds| == |batches| + 2 && n <= |batches| && Stands(worlds[..|batches| + 1], batches, n)
    ensures Stands(worlds, batches + [last], n)
  {
    assert (batches + [last])[..n] == batches[..n];
  }

  /** Every run of the whole vault is, for its connections, one history of the table's writers. */
  lemma {:induction false} RunIsHistory(worlds: seq<World>, actions: seq<Action>) returns (batches: seq<seq<H.Event>>)
    requires IsRun(worlds, actions)
    ensures AreBatches(worlds, actions, batches)
    ensures forall n: nat | n <= |actions| :: Stands(worlds, batches, n)
    decreases |actions|
  {
    if actions == [] {
      batches := [];
      assert batches[..0] == [];
    } else {
      var n := |actions| - 1;
      RunPrefix(worlds, actions, n);
      var before := RunIsHistory(worlds[..n + 1], actions[..n]);
      var last := StepWrites(worlds[n], actions[n]);
      batches := before + [last];
      StandsOn(worlds, before, last);
      forall m: nat | m <= |actions|
        ensures Stands(worlds, batches, m)
      {
        if m <= n {
          StoodBefore(worlds, before, last, m);
        }
      }
      forall i | 0 <= i < |actions|
        ensures Writes(worlds[i], actions[i], batches[i])
      {
        if i < n {
          assert Writes(worlds[..n + 1][i], actions[..n][i], before[i]);
        }
      }
    }
  }

  /** Which step wrote event `k`. */
  lemma {:induction false} StepOfEvent(batches: seq<seq<H.Event>>, k: nat) returns (i: nat)
    requires k < |Flat(batches)|
    ensures i < |batches| && |Flat(batches[..i])| <= k < |Flat(batches[..i])| + |batches[i]|
    ensures Flat(batches)[k] == batches[i][k - |Flat(batches[..i])|]
    decreases |batches|
  {
    var front := batches[..|batches| - 1];
    if |Flat(front)| <= k {
      i := |front|;
    } else {
      i := StepOfEvent(front, k);
      assert front[..i] == batches[..i];
    }
  }

  lemma {:induction false} FlatPrefix(batches: seq<seq<H.Event>>, n: nat)
    requires n <= |batches|
    ensures Flat(batches[..n]) <= Flat(batches)
    decreases |batches|
  {
    if n < |batches| {
      FlatPrefix(batches[..|batches| - 1], n);
      assert batches[..|batches| - 1][..n] == batches[..n];
    } else {
      assert batches[..n] == batches;
    }
  }

  lemma {:induction false} LongerFlat(batches: seq<seq<H.Event>>, i: nat, j: nat)
    requires i <= j <= |batches|
    ensures Flat(batches[..i]) <= Flat(batches[..j])
  {
    FlatPrefix(batches[..j], i);
    assert batches[..j][..i] == batches[..i];
  }

  /** The world after step `i`, or a later one, is some later point of the history. */
  lemma WorldInHistory(worlds: seq<World>, batches: seq<seq<H.Event>>, i: nat, j: nat) returns (m: nat)
    requires i < j <= |batches| && Stands(worlds, batches, j)
    ensures |Flat(batches[..i + 1])| <= m <= |Flat(batches)|
    ensures worlds[j].graph == H.After(worlds[0].graph, Flat(batches)[..m])
    ensures j == i + 1 ==> m == |Flat(batches[..i + 1])|
  {
    m := |Flat(batches[..j])|;
    FlatPrefix(batches, j);
    LongerFlat(batches, i + 1, j);
    assert Flat(batches)[..m] == Flat(batches[..j]);
  }

  // ---- what every history promises, in the whole vault ----

  /** Step `i` is a person accepting or drawing this very edge. */
  ghost predicate ByAPerson(worlds: seq<World>, actions: seq<Action>, id: EdgeId, i: nat)
    requires |worlds| == |actions| + 1
  {
    && i < |actions| && actions[i].Edit?
    && (|| (actions[i].edit.Confirm? && actions[i].edit.id == id)
        || (id in worlds[i + 1].graph.edges && H.Draws(actions[i].edit, worlds[i + 1].graph.edges[id])))
  }

  /** Only an edit confirms or draws, and it writes nothing else. */
  lemma PersonsEvent(w: World, a: Action, events: seq<H.Event>, n: nat)
    requires Writes(w, a, events) && n < |events| && (events[n].action.Confirm? || events[n].action.Connect?)
    ensures a.Edit? && n == 0 && |events| == 1 && events[n].action == a.edit
  {
  }

  lemma PersonsStep(worlds: seq<World>, actions: seq<Action>, batches: seq<seq<H.Event>>, k: nat) returns (i: nat)
    requires AreBatches(worlds, actions, batches) && k < |Flat(batches)|
    requires Flat(batches)[k].action.Confirm? || Flat(batches)[k].action.Connect?
    ensures i < |actions| && actions[i].Edit? && actions[i].edit == Flat(batches)[k].action
    ensures |Flat(batches[..i + 1])| == k + 1
  {
    i := StepOfEvent(batches, k);
    PersonsEvent(worlds[i], actions[i], batches[i], k - |Flat(batches[..i])|);
    assert batches[..i + 1][..i] == batches[..i];
  }

  lemma ConfirmedFrom(worlds: seq<World>, batches: seq<seq<H.Event>>, id: EdgeId, i: nat, k: nat, j: nat)
    requires i < j <= |batches| && Stands(worlds, batches, j) && worlds[0].graph == H.EMPTY
    requires |Flat(batches[..i + 1])| == k + 1 && H.PersonConfirmed(H.EMPTY, Flat(batches), id, k)
    ensures H.IsConfirmed(worlds[j].graph, id)
  {
    var m := WorldInHistory(worlds, batches, i, j);
  }

  lemma PersonsWorld(worlds: seq<World>, actions: seq<Action>, batches: seq<seq<H.Event>>, id: EdgeId, i: nat, k: nat)
    requires |worlds| == |actions| + 1 == |batches| + 1 && i < |actions| && worlds[0].graph == H.EMPTY
    requires Stands(worlds, batches, i + 1) && |Flat(batches[..i + 1])| == k + 1
    requires H.PersonConfirmed(H.EMPTY, Flat(batches), id, k)
    requires actions[i].Edit? && actions[i].edit == Flat(batches)[k].action
    ensures ByAPerson(worlds, actions, id, i)
  {
    var m := WorldInHistory(worlds, batches, i, i + 1);
  }

  /**
   Whatever the pipeline, the sweeps, the derivations and the purges do in between, an edge that is
   confirmed was confirmed by a person's own step, and has been ever since; one of the model's was accepted.
   */
  lemma ConfirmedByAPerson(worlds: seq<World>, actions: seq<Action>, id: EdgeId) returns (i: nat)
    requires IsRun(worlds, actions) && worlds[0].graph == H.EMPTY
    requires H.IsConfirmed(worlds[|actions|].graph, id)
    ensures ByAPerson(worlds, actions, id, i)
    ensures worlds[|actions|].graph.edges[id].origin.Ai? ==> actions[i].edit.Confirm?
    ensures forall j: nat | i < j <= |actions| :: H.IsConfirmed(worlds[j].graph, id)
  {
    var batches := RunIsHistory(worlds, actions);
    assert Stands(worlds, batches, |actions|) && batches[..|actions|] == batches;
    var k := H.NoEdgeConfirmedWithoutAPerson(Flat(batches), id);
    i := PersonsStep(worlds, actions, batches, k);
    forall j: nat | i < j <= |actions|
      ensures H.IsConfirmed(worlds[j].graph, id)
    {
      ConfirmedFrom(worlds, batches, id, i, k, j);
    }
    PersonsWorld(worlds, actions, batches, id, i, k);
  }

  /** The step neither draws the pair by hand, nor deletes its row, nor purges a memory at its ends. */
  ghost predicate Spares(w: World, a: Action, id: EdgeId, pair: Edge) {
    match a
    case Edit(edit) => !H.Draws(edit, pair) && !H.Removes(edit, id, pair)
    case Vault(step) => forall gone: seq<ItemId> | Purges(w, step, gone) :: pair.source !in gone && pair.target !in gone
    case Derive(_, _, _) => true
  }

  lemma SparedEvents(w: World, a: Action, events: seq<H.Event>, id: EdgeId, pair: Edge)
    requires Writes(w, a, events) && Spares(w, a, id, pair)
    ensures H.LeavesAlone(events, id, pair)
  {
    match a
    case Vault(step) =>
      var gone: seq<ItemId> :| Purges(w, step, gone) && Removals(w, gone, events);
      forall n | 0 <= n < |events|
        ensures !H.Draws(events[n].action, pair) && !H.Removes(events[n].action, id, pair)
      {
        assert events[n].action == H.PurgeItem(gone[n]) && gone[n] in gone;
      }
    case _ =>
  }

  lemma SparedHistory(worlds: seq<World>, actions: seq<Action>, batches: seq<seq<H.Event>>, id: EdgeId, pair: Edge)
    requires AreBatches(worlds, actions, batches)
    requires forall i | 0 <= i < |actions| :: Spares(worlds[i], actions[i], id, pair)
    ensures H.LeavesAlone(Flat(batches), id, pair)
  {
    forall k | 0 <= k < |Flat(batches)|
      ensures !H.Draws(Flat(batches)[k].action, pair) && !H.Removes(Flat(batches)[k].action, id, pair)
    {
      var i := StepOfEvent(batches, k);
      SparedEvents(worlds[i], actions[i], batches[i], id, pair);
    }
  }

  /**
   A dismissed pair stays dismissed, with no second row, through any run of the whole vault in which
   nobody draws it by hand, deletes its row, or purges one of its memories.
   */
  lemma DismissalOutlivesRuns(worlds: seq<World>, actions: seq<Action>, id: EdgeId)
    requires IsRun(worlds, actions) && Valid(worlds[0].graph) && H.IsDismissed(worlds[0].graph, id)
    requires forall i | 0 <= i < |actions| :: Spares(worlds[i], actions[i], id, worlds[0].graph.edges[id])
    ensures var g, pair := worlds[|actions|].graph, worlds[0].graph.edges[id];
            && H.IsDismissed(g, id) && H.SameRow(pair, g.edges[id])
            && forall other | other in g.edges && HasPair(g.edges[other], pair.owner, pair.source, pair.target) ::
                 other == id
  {
    var batches := RunIsHistory(worlds, actions);
    assert Stands(worlds, batches, |actions|) && batches[..|actions|] == batches;
    SparedHistory(worlds, actions, batches, id, worlds[0].graph.edges[id]);
    H.DismissalSticks(worlds[0].graph, Flat(batches), id);
  }
}
