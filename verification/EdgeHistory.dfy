/** What holds of the connection table in every run of its writers, with two writers and arbitrary model answers. */
module EdgeHistory {
  import opened Base
  import opened Rows
  import opened Edges
  import C = ConnectionServices

  /** One write and the vault as its transaction saw it. */
  datatype Event = Event(items: Items, now: Time, action: Action)

  datatype Action =
    | Connect(user: UserId, source: ItemId, target: ItemId, relation: Relation, note: Option<string>)
    | Update(user: UserId, id: EdgeId, newRelation: Option<Relation>, note: Option<string>)
    | Retype(user: UserId, id: EdgeId, answer: C.TypingAnswer)
    | Confirm(user: UserId, id: EdgeId)
    | Dismiss(user: UserId, id: EdgeId)
    | Delete(user: UserId, id: EdgeId)
    | Suggest(owner: UserId, item: ItemId, proposals: seq<Proposal>)
    | PurgeItem(item: ItemId)

  ghost function Next(g: Graph, e: Event): Graph {
    match e.action
    case Connect(user, source, target, relation, note) =>
      C.ConnectedBy(g, e.items, user, source, target, relation, note, e.now)
    case Update(user, id, relation, note) => C.UpdatedBy(g, e.items, user, id, relation, note)
    case Retype(user, id, answer) => C.RetypedBy(g, e.items, user, id, answer)
    case Confirm(user, id) => C.AcceptedBy(g, e.items, user, id, e.now)
    case Dismiss(user, id) => C.DismissedBy(g, user, id, e.now)
    case Delete(user, id) => C.DeletedBy(g, user, id)
    case Suggest(owner, item, proposals) => SuggestedMany(g, owner, item, proposals, e.now)
    case PurgeItem(item) => g.(edges := WithoutItem(g.edges, item))
  }

  ghost function After(g: Graph, events: seq<Event>): Graph {
    if events == [] then g else Next(After(g, events[..|events| - 1]), events[|events| - 1])
  }

  const EMPTY := Graph(map[], 0)

  // ---- the constraints ----

  lemma {:induction false} SuggestedManyKeepsValid(g: Graph, owner: UserId, item: ItemId, ps: seq<Proposal>, now: Time)
    requires Valid(g)
    ensures Valid(SuggestedMany(g, owner, item, ps, now))
  {
    if ps != [] {
      SuggestedManyKeepsValid(g, owner, item, ps[..|ps| - 1], now);
      var before := SuggestedMany(g, owner, item, ps[..|ps| - 1], now);
      var p := ps[|ps| - 1];
      if p.target != item && !PairTaken(before.edges, owner, item, p.target) {
        var row := ProposedEdge(owner, item, p, now);
        assert PairTaken(before.edges, owner, row.source, row.target) ==>
            PairTaken(before.edges, owner, item, p.target);
        InsertKeepsValid(before, row);
      }
    }
  }

  /** Every write keeps every constraint of the table. */
  lemma NextKeepsValid(g: Graph, e: Event)
    requires Valid(g)
    ensures Valid(Next(g, e))
  {
    match e.action
    case Connect(user, source, target, relation, note) =>
      if source != target && Owns(e.items, user, source) && Owns(e.items, user, target) {
        var (s, t) := C.Oriented(source, target, relation);
        if PairTaken(g.edges, user, s, t) {
          var id := PairRow(g.edges, user, s, t);
          RewriteKeepsValid(g, id, Revived(g.edges[id], relation, C.CleanNote(note), e.now));
        } else {
          InsertKeepsValid(g, Edge(user, s, t, relation, User, EdgeStatus.Confirmed, None, C.CleanNote(note), None,
              e.now, Some(e.now), None));
        }
      }
    case Update(user, id, relation, note) =>
      if Next(g, e) != g {
        RewriteKeepsValid(g, id, Next(g, e).edges[id]);
      }
    case Retype(user, id, answer) =>
      if Next(g, e) != g {
        RewriteKeepsValid(g, id, Next(g, e).edges[id]);
      }
    case Confirm(user, id) =>
      if Next(g, e) != g {
        RewriteKeepsValid(g, id, ConfirmedEdge(g.edges[id], e.now));
      }
    case Dismiss(user, id) =>
      if Next(g, e) != g {
        RewriteKeepsValid(g, id, DismissedEdge(g.edges[id], e.now));
      }
    case Suggest(owner, item, proposals) => SuggestedManyKeepsValid(g, owner, item, proposals, e.now);
    case _ =>
  }

  lemma {:induction false} AfterIsValid(g: Graph, events: seq<Event>)
    requires Valid(g)
    ensures Valid(After(g, events))
  {
    if events != [] {
      AfterIsValid(g, events[..|events| - 1]);
      NextKeepsValid(After(g, events[..|events| - 1]), events[|events| - 1]);
    }
  }

  // ---- what survives one write ----

  ghost predicate SameRow(before: Edge, after: Edge) {
    && HasPair(after, before.owner, before.source, before.target)
    && (before.origin.User? ==> after.origin.User?)
  }

  lemma {:induction false} SuggestedManyOnlyAdds(g: Graph, owner: UserId, item: ItemId, ps: seq<Proposal>, now: Time)
    requires Valid(g)
    ensures var t := SuggestedMany(g, owner, item, ps, now);
            && t.next >= g.next
            && (forall id | id in g.edges :: id in t.edges && t.edges[id] == g.edges[id])
            && (forall id | id in t.edges && id !in g.edges :: t.edges[id].status.Suggested? && t.edges[id].origin.Ai?)
  {
    if ps != [] {
      SuggestedManyOnlyAdds(g, owner, item, ps[..|ps| - 1], now);
      SuggestedManyKeepsValid(g, owner, item, ps[..|ps| - 1], now);
    }
  }

  /** The action that draws this very pair by hand. */
  predicate Draws(a: Action, e: Edge) {
    a.Connect? && HasPair(e, a.user, a.source, a.target)
  }

  predicate Removes(a: Action, id: EdgeId, e: Edge) {
    (a.Delete? && a.id == id && a.user == e.owner) || (a.PurgeItem? && Touches(e, a.item))
  }

  lemma RowSurvives(g: Graph, e: Event, id: EdgeId)
    requires Valid(g) && id in g.edges && !Removes(e.action, id, g.edges[id])
    ensures id in Next(g, e).edges && SameRow(g.edges[id], Next(g, e).edges[id])
    ensures Next(g, e).edges[id].status != g.edges[id].status ==>
              || Draws(e.action, g.edges[id])
              || (e.action.Confirm? && e.action.id == id && g.edges[id].status.Suggested?)
              || (e.action.Dismiss? && e.action.id == id)
  {
    match e.action
    case Suggest(owner, item, proposals) => SuggestedManyOnlyAdds(g, owner, item, proposals, e.now);
    case _ =>
  }

  // ---- a dismissal sticks ----

  ghost predicate IsDismissed(g: Graph, id: EdgeId) {
    id in g.edges && g.edges[id].status.Dismissed?
  }

  /** No event of the run draws the dismissed pair by hand or removes its row. */
  ghost predicate LeavesAlone(events: seq<Event>, id: EdgeId, pair: Edge) {
    forall i | 0 <= i < |events| :: !Draws(events[i].action, pair) && !Removes(events[i].action, id, pair)
  }

  /**
   Once a pair is dismissed, derivations from either end, updates, retypes, confirms and dismisses
   leave it dismissed, and no other row for the pair ever appears.
   */
  lemma {:induction false} DismissalSticks(g: Graph, events: seq<Event>, id: EdgeId)
    requires Valid(g) && IsDismissed(g, id)
    requires LeavesAlone(events, id, g.edges[id])
    ensures IsDismissed(After(g, events), id) && SameRow(g.edges[id], After(g, events).edges[id])
    ensures forall other | other in After(g, events).edges
                           && HasPair(After(g, events).edges[other], g.edges[id].owner,
                                      g.edges[id].source, g.edges[id].target) ::
              other == id
  {
    AfterIsValid(g, events);
    if events != [] {
      var front, last := events[..|events| - 1], events[|events| - 1];
      DismissalSticks(g, front, id);
      AfterIsValid(g, front);
      assert !Draws(last.action, g.edges[id]) && !Removes(last.action, id, g.edges[id]);
      RowSurvives(After(g, front), last, id);
    }
  }

  /** The two ways a dismissal ends, and there is no third. */
  lemma DismissalEndsOnlyBy(g: Graph, e: Event, id: EdgeId)
    requires Valid(g) && IsDismissed(g, id) && !IsDismissed(Next(g, e), id)
    ensures Draws(e.action, g.edges[id]) || Removes(e.action, id, g.edges[id])
  {
    if !Removes(e.action, id, g.edges[id]) {
      RowSurvives(g, e, id);
    }
  }

  // ---- re-deriving is a no-op ----

  lemma {:induction false} BatchTaken(g: Graph, owner: UserId, item: ItemId, ps: seq<Proposal>, now: Time, i: nat)
    requires Valid(g) && i < |ps| && ps[i].target != item
    ensures PairTaken(SuggestedMany(g, owner, item, ps, now).edges, owner, item, ps[i].target)
  {
    var front := ps[..|ps| - 1];
    var before := SuggestedMany(g, owner, item, front, now);
    SuggestedManyKeepsValid(g, owner, item, front, now);
    var after := SuggestedMany(g, owner, item, ps, now);
    if i < |front| {
      BatchTaken(g, owner, item, front, now, i);
      var id := PairRow(before.edges, owner, item, ps[i].target);
      assert id in after.edges && after.edges[id] == before.edges[id];
    } else if !PairTaken(before.edges, owner, item, ps[i].target) {
      assert HasPair(after.edges[before.next], owner, item, ps[i].target);
    }
  }

  lemma {:induction false} TakenBatchWritesNothing(g: Graph, owner: UserId, item: ItemId, ps: seq<Proposal>, now: Time)
    requires forall i | 0 <= i < |ps| :: ps[i].target == item || PairTaken(g.edges, owner, item, ps[i].target)
    ensures SuggestedMany(g, owner, item, ps, now) == g
  {
    if ps != [] {
      TakenBatchWritesNothing(g, owner, item, ps[..|ps| - 1], now);
    }
  }

  /** Repeating a batch of proposals, however much later, changes nothing and writes no row. */
  lemma RepeatedSuggestIsNoop(g: Graph, owner: UserId, item: ItemId, ps: seq<Proposal>, now: Time, later: Time)
    requires Valid(g)
    ensures var once := SuggestedMany(g, owner, item, ps, now);
            SuggestedMany(once, owner, item, ps, later) == once
  {
    forall i | 0 <= i < |ps| && ps[i].target != item
      ensures PairTaken(SuggestedMany(g, owner, item, ps, now).edges, owner, item, ps[i].target)
    {
      BatchTaken(g, owner, item, ps, now, i);
    }
    TakenBatchWritesNothing(SuggestedMany(g, owner, item, ps, now), owner, item, ps, later);
  }

  // ---- no edge is confirmed without a person ----

  ghost predicate IsConfirmed(g: Graph, id: EdgeId) {
    id in g.edges && g.edges[id].status.Confirmed?
  }

  /** Event `k` is a person accepting or drawing this edge, and it stays confirmed from there on. */
  ghost predicate PersonConfirmed(g: Graph, events: seq<Event>, id: EdgeId, k: nat) {
    && k < |events|
    && (|| (events[k].action.Confirm? && events[k].action.id == id)
        || (id in After(g, events[..k + 1]).edges && Draws(events[k].action, After(g, events[..k + 1]).edges[id])))
    && (forall j | k < j <= |events| :: IsConfirmed(After(g, events[..j]), id))
  }

  /**
   In every history of the table, a confirmed edge became confirmed at a person's `confirm` or
   manual connect and has been confirmed ever since; one that still counts as the model's was accepted by `confirm`.
   */
  lemma {:induction false} NoEdgeConfirmedWithoutAPerson(events: seq<Event>, id: EdgeId) returns (k: nat)
    requires IsConfirmed(After(EMPTY, events), id)
    ensures PersonConfirmed(EMPTY, events, id, k)
    ensures After(EMPTY, events).edges[id].origin.Ai? ==> events[k].action.Confirm?
  {
    var front, last := events[..|events| - 1], events[|events| - 1];
    var before, after := After(EMPTY, front), After(EMPTY, events);
    AfterIsValid(EMPTY, front);
    assert events[..|events|] == events;
    if IsConfirmed(before, id) {
      k := NoEdgeConfirmedWithoutAPerson(front, id);
      assert front[..k + 1] == events[..k + 1];
      assert !Removes(last.action, id, before.edges[id]);
      RowSurvives(before, last, id);
      forall j | k < j <= |events|
        ensures IsConfirmed(After(EMPTY, events[..j]), id)
      {
        if j < |events| {
          assert front[..j] == events[..j];
        }
      }
    } else {
      k := |events| - 1;
      NewlyConfirmed(before, last, id);
    }
  }

  lemma NewlyConfirmed(g: Graph, e: Event, id: EdgeId)
    requires Valid(g) && !IsConfirmed(g, id) && IsConfirmed(Next(g, e), id)
    ensures || (e.action.Confirm? && e.action.id == id)
            || (Draws(e.action, Next(g, e).edges[id]) && Next(g, e).edges[id].origin.User?)
  {
    if id in g.edges && !Removes(e.action, id, g.edges[id]) {
      RowSurvives(g, e, id);
    } else if e.action.Suggest? {
      SuggestedManyOnlyAdds(g, e.action.owner, e.action.item, e.action.proposals, e.now);
    }
  }

  // ---- the direction of an edge ----

  predicate PointsUp(e: Edge) {
    Symmetric(e.relation) ==> e.source < e.target
  }

  ghost predicate NormalForm(g: Graph) {
    forall id | id in g.edges :: PointsUp(g.edges[id])
  }

  /** A manual connect that relabels, with a symmetric relation, a row stored from the higher id. */
  ghost predicate RelabelsBackwards(g: Graph, e: Event) {
    && e.action.Connect? && e.action.source != e.action.target
    && Owns(e.items, e.action.user, e.action.source) && Owns(e.items, e.action.user, e.action.target)
    && Symmetric(e.action.relation)
    && PairTaken(g.edges, e.action.user, e.action.source, e.action.target)
    && var row := g.edges[PairRow(g.edges, e.action.user, e.action.source, e.action.target)];
       row.source > row.target
  }

  lemma {:induction false} SuggestedManyKeepsNormalForm(g: Graph, owner: UserId, item: ItemId, ps: seq<Proposal>,
      now: Time)
    requires Valid(g) && NormalForm(g)
    ensures NormalForm(SuggestedMany(g, owner, item, ps, now))
  {
    if ps != [] {
      SuggestedManyKeepsNormalForm(g, owner, item, ps[..|ps| - 1], now);
    }
  }

  /** The connect branch that meets an existing row keeps that row's ends, whatever was asked. */
  lemma UpsertWrites(g: Graph, owner: UserId, s: ItemId, t: ItemId, a: ItemId, b: ItemId,
                     relation: Relation, note: Option<string>, now: Time)
    requires Valid(g) && ((s == a && t == b) || (s == b && t == a))
    ensures PairTaken(g.edges, owner, s, t) <==> PairTaken(g.edges, owner, a, b)
    ensures PairTaken(g.edges, owner, a, b) ==>
              var id := PairRow(g.edges, owner, a, b);
              Upserted(g, owner, s, t, relation, note, now).edges
              == g.edges[id := Revived(g.edges[id], relation, note, now)]
  {
    if PairTaken(g.edges, owner, s, t) {
      PairRowIsTheRow(g.edges, PairRow(g.edges, owner, s, t), owner, a, b);
    }
    if PairTaken(g.edges, owner, a, b) {
      PairRowIsTheRow(g.edges, PairRow(g.edges, owner, a, b), owner, s, t);
    }
  }

  /** A write keeps every symmetric edge pointing from its lower id unless it relabels a row backwards. */
  lemma NormalFormStep(g: Graph, e: Event)
    requires Valid(g) && NormalForm(g)
    ensures NormalForm(Next(g, e)) <==> !RelabelsBackwards(g, e)
  {
    match e.action
    case Connect(user, source, target, relation, note) =>
      if source != target && Owns(e.items, user, source) && Owns(e.items, user, target) {
        var (s, t) := C.Oriented(source, target, relation);
        UpsertWrites(g, user, s, t, source, target, relation, C.CleanNote(note), e.now);
        if PairTaken(g.edges, user, source, target) {
          var id := PairRow(g.edges, user, source, target);
          assert Next(g, e).edges[id].source == g.edges[id].source;
        }
      }
    case Suggest(owner, item, proposals) => SuggestedManyKeepsNormalForm(g, owner, item, proposals, e.now);
    case _ =>
  }

  /** In every run without such a connect, symmetric edges are stored from the lower id, whoever wrote them. */
  lemma {:induction false} DirectionNormalForm(events: seq<Event>)
    requires forall i | 0 <= i < |events| :: !RelabelsBackwards(After(EMPTY, events[..i]), events[i])
    ensures NormalForm(After(EMPTY, events))
  {
    if events != [] {
      var front := events[..|events| - 1];
      forall i | 0 <= i < |front|
        ensures !RelabelsBackwards(After(EMPTY, front[..i]), front[i])
      {
        assert front[..i] == events[..i];
      }
      DirectionNormalForm(front);
      AfterIsValid(EMPTY, front);
      NormalFormStep(After(EMPTY, front), events[|events| - 1]);
    }
  }

  /** The run that shows the hypothesis is needed: a swapped `part_of` proposal, then a manual `related_to`. */
  lemma BackwardsWitness(items: Items)
    requires Owns(items, 0, 1) && Owns(items, 0, 2)
    ensures !NormalForm(After(EMPTY, [Event(items, 0, Suggest(0, 1, [Proposal(2, None, PartOf, None, true)])),
                                      Event(items, 1, Connect(0, 1, 2, RelatedTo, None))]))
  {
    var first := Event(items, 0, Suggest(0, 1, [Proposal(2, None, PartOf, None, true)]));
    var second := Event(items, 1, Connect(0, 1, 2, RelatedTo, None));
    var p := first.action.proposals[0];
    assert SuggestedMany(EMPTY, 0, 1, [], 0) == EMPTY;
    assert first.action.proposals[..0] == [];
    var g := Next(After(EMPTY, []), first);
    assert [first][..0] == [] && After(EMPTY, [first]) == g;
    assert g == Inserted(EMPTY, ProposedEdge(0, 1, p, 0));
    assert g.edges[0].source == 2 && g.edges[0].target == 1;
    assert HasPair(g.edges[0], 0, 1, 2);
    NextKeepsValid(EMPTY, first);
    PairRowIsTheRow(g.edges, 0, 0, 1, 2);
    assert RelabelsBackwards(g, second);
    NormalFormStep(g, second);
    assert [first, second][..1] == [first];
  }

  /** A manual connect stores the direction it was asked for exactly when the pair was free or already lay that way. */
  lemma ConnectStoresAskedDirectionIff(g: Graph, e: Event)
    requires Valid(g) && e.action.Connect? && e.action.source != e.action.target
    requires Owns(e.items, e.action.user, e.action.source) && Owns(e.items, e.action.user, e.action.target)
    ensures var a := e.action;
            var asked := if a.relation in {RelatedTo, Contradicts, DuplicateOf} && a.target < a.source
                         then (a.target, a.source) else (a.source, a.target);
            && PairTaken(Next(g, e).edges, a.user, a.source, a.target)
            && var after := Next(g, e).edges[PairRow(Next(g, e).edges, a.user, a.source, a.target)];
               && after.relation == a.relation && after.status.Confirmed?
               && ((after.source, after.target) == asked <==>
                   (PairTaken(g.edges, a.user, a.source, a.target) ==>
                      var row := g.edges[PairRow(g.edges, a.user, a.source, a.target)];
                      (row.source, row.target) == asked))
  {
    var a := e.action;
    var (s, t) := C.Oriented(a.source, a.target, a.relation);
    UpsertWrites(g, a.user, s, t, a.source, a.target, a.relation, C.CleanNote(a.note), e.now);
    NextKeepsValid(g, e);
    var id := if PairTaken(g.edges, a.user, a.source, a.target) then PairRow(g.edges, a.user, a.source, a.target)
              else g.next;
    PairRowIsTheRow(Next(g, e).edges, id, a.user, a.source, a.target);
  }
}
