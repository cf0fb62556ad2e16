/** What each write leaves in the connection table, column by column. */
module EdgeWrites {
  import opened Base
  import opened Rows
  import opened Edges
  import C = ConnectionServices
  import opened EdgeHistory

  /** The relations that read the same from both ends. */
  const BOTH_WAYS := {RelatedTo, Contradicts, DuplicateOf}

  /** A missing or blank note is none; any other is stored without the white space around it. */
  ghost predicate IsNote(raw: Option<string>, note: Option<string>) {
    if raw.None? || Blank(raw.value) then note.None? else note.Some? && IsStripped(raw.value, note.value)
  }

  /** An edge drawn from `a` to `b`, or from the lower id when the relation reads both ways. */
  predicate Runs(e: Edge, relation: Relation, a: ItemId, b: ItemId) {
    if relation in BOTH_WAYS then e.source == Min(a, b) && e.target == (if a <= b then b else a)
    else e.source == a && e.target == b
  }

  /** The table gained exactly row `id`. */
  predicate Gained(g: Graph, t: Graph, id: EdgeId) {
    && id == g.next && t.next == g.next + 1 && t.edges.Keys == g.edges.Keys + {id}
    && forall other | other in g.edges && other != id :: t.edges[other] == g.edges[other]
  }

  /** Only row `id` may have changed. */
  predicate Rewrote(g: Graph, t: Graph, id: EdgeId) {
    && id in g.edges && t.next == g.next && t.edges.Keys == g.edges.Keys
    && forall other | other in g.edges && other != id :: t.edges[other] == g.edges[other]
  }

  lemma NoteIsCleaned(raw: Option<string>)
    ensures IsNote(raw, C.CleanNote(raw))
  {
    if raw.Some? {
      StripStrips(raw.value);
    }
  }

  // ---- a person draws an edge ----

  ghost predicate Inserts(g: Graph, t: Graph, a: Action, now: Time)
    requires a.Connect?
  {
    exists id: EdgeId :: Gained(g, t, id) && Drawn(t.edges[id], a, now)
  }

  /** The new row: from the asked end, confirmed now, by the person, with no score and no reason of the model's. */
  ghost predicate Drawn(e: Edge, a: Action, now: Time)
    requires a.Connect?
  {
    && e.owner == a.user && e.relation == a.relation && Runs(e, a.relation, a.source, a.target)
    && e.origin.User? && e.status.Confirmed? && e.score.None? && e.aiReason.None? && IsNote(a.note, e.note)
    && e.createdAt == now && e.confirmedAt == Some(now) && e.dismissedAt.None?
  }

  /** The pair's row is the person's now, but keeps its ends and the time it was made. */
  ghost predicate Redrawn(before: Edge, e: Edge, a: Action, now: Time)
    requires a.Connect?
  {
    && e == before.(relation := a.relation, origin := User, status := EdgeStatus.Confirmed, score := None,
                    note := e.note, aiReason := None, confirmedAt := Some(now), dismissedAt := None)
    && IsNote(a.note, e.note)
  }

  /**
   A connect of two different memories of one's own writes a new row running the way it was asked
   when the pair is free, and otherwise relabels the pair's row; any other connect writes nothing.
   */
  lemma ConnectWrites(g: Graph, e: Event)
    requires Valid(g) && e.action.Connect?
    ensures var a, t := e.action, Next(g, e);
            if a.source == a.target || !Owns(e.items, a.user, a.source) || !Owns(e.items, a.user, a.target) then t == g
            else if PairTaken(g.edges, a.user, a.source, a.target) then
              var id := PairRow(g.edges, a.user, a.source, a.target);
              Rewrote(g, t, id) && Redrawn(g.edges[id], t.edges[id], a, e.now)
            else Inserts(g, t, a, e.now)
  {
    var a, t := e.action, Next(g, e);
    if a.source != a.target && Owns(e.items, a.user, a.source) && Owns(e.items, a.user, a.target) {
      var (from, to) := C.Oriented(a.source, a.target, a.relation);
      NoteIsCleaned(a.note);
      UpsertWrites(g, a.user, from, to, a.source, a.target, a.relation, C.CleanNote(a.note), e.now);
      if !PairTaken(g.edges, a.user, a.source, a.target) {
        assert Gained(g, t, g.next) && Drawn(t.edges[g.next], a, e.now);
      }
    }
  }

  // ---- a person edits one ----

  /** A note edit: none given keeps the note, a blank one clears it. */
  ghost predicate NoteEdited(before: Option<string>, raw: Option<string>, note: Option<string>) {
    if raw.None? then note == before else IsNote(raw, note)
  }

  /** Relabelled, recaptioned, and pointing from its lower id if the new label reads both ways. */
  ghost predicate Updated(before: Edge, e: Edge, relation: Option<Relation>, note: Option<string>) {
    && e == before.(relation := e.relation, note := e.note, source := e.source, target := e.target)
    && e.relation == (if relation.Some? then relation.value else before.relation)
    && NoteEdited(before.note, note, e.note)
    && if relation.Some? then Runs(e, relation.value, before.source, before.target)
       else e.source == before.source && e.target == before.target
  }

  lemma RelabelledNote(before: Edge, relation: Option<Relation>, note: Option<string>)
    ensures var clear := note.Some? && Strip(note.value) == "";
            NoteEdited(before.note, note, Relabelled(before, relation, C.CleanNote(note), clear).note)
  {
    NoteIsCleaned(note);
    if note.Some? {
      StripStrips(note.value);
    }
  }

  lemma RowIsUpdated(before: Edge, relation: Option<Relation>, note: Option<string>)
    ensures Updated(before, C.UpdatedEdge(before, relation, note), relation, note)
  {
    RelabelledNote(before, relation, note);
  }

  /** An edit is kept only when the memory its edge then points at can be shown. */
  lemma UpdateWrites(g: Graph, e: Event)
    requires e.action.Update?
    ensures var a, t := e.action, Next(g, e);
            if !Mine(g.edges, a.id, a.user) then t == g
            else exists row: Edge :: Updated(g.edges[a.id], row, a.newRelation, a.note)
                   && t == if Owns(e.items, a.user, row.target) then g.(edges := g.edges[a.id := row]) else g
  {
    var a := e.action;
    if Mine(g.edges, a.id, a.user) {
      RowIsUpdated(g.edges[a.id], a.newRelation, a.note);
      var row := C.UpdatedEdge(g.edges[a.id], a.newRelation, a.note);
      assert Next(g, e) == C.Saved(g, e.items, a.user, a.id, row);
    }
  }

  /** The edge after a retype: the model's label, direction and reason. */
  predicate RelabelledBy(before: Edge, e: Edge, typing: C.Typing) {
    && e == before.(relation := typing.relation, source := e.source, target := e.target, aiReason := e.aiReason)
    && e.aiReason == (if typing.reason == "" then None else Some(typing.reason))
    && if typing.swap then Runs(e, typing.relation, before.target, before.source)
       else Runs(e, typing.relation, before.source, before.target)
  }

  lemma RetypeWrites(g: Graph, e: Event)
    requires e.action.Retype?
    ensures var a, t := e.action, Next(g, e);
            if a.answer.Typed? && Mine(g.edges, a.id, a.user)
               && Owns(e.items, a.user, g.edges[a.id].source) && Owns(e.items, a.user, g.edges[a.id].target)
            then Rewrote(g, t, a.id) && RelabelledBy(g.edges[a.id], t.edges[a.id], a.answer.typing)
            else t == g
  {
  }

  /** An update's reply shows what was stored; any other reply means that nothing was. */
  lemma UpdateReplyTells(g: Graph, items: Items, user: UserId, id: EdgeId,
                         relation: Option<Relation>, note: Option<string>)
    requires Mine(g.edges, id, user)
    ensures var t, reply := C.UpdatedBy(g, items, user, id, relation, note),
                            C.Shown(items, user, id, C.UpdatedEdge(g.edges[id], relation, note));
            if reply.Edited? then
              && id in t.edges && Updated(g.edges[id], t.edges[id], relation, note)
              && reply == C.Edited(id, false, t.edges[id].target) && Owns(items, user, t.edges[id].target)
            else t == g && reply.NotFound?
  {
    RowIsUpdated(g.edges[id], relation, note);
  }

  /** So does a retype's, and each refusal has its own. */
  lemma RetypeReplyTells(g: Graph, items: Items, user: UserId, id: EdgeId, answer: C.TypingAnswer)
    ensures var t, reply := C.RetypedBy(g, items, user, id, answer), C.RetypeReply(g.edges, items, user, id, answer);
            var mine := id in g.edges && g.edges[id].owner == user;
            var whole := mine && Owns(items, user, g.edges[id].source) && Owns(items, user, g.edges[id].target);
            && (reply.Unavailable? <==> answer.SwitchedOff? || (answer.OverQuota? && mine))
            && (reply.ProviderFailed? <==> answer.NoAnswer? && whole)
            && (reply.Edited? <==> answer.Typed? && whole)
            && if reply.Edited? then
                 id in t.edges && RelabelledBy(g.edges[id], t.edges[id], answer.typing)
                 && reply == C.Edited(id, false, t.edges[id].target)
               else t == g && (reply.Unavailable? || reply.ProviderFailed? || reply.NotFound?)
  {
  }

  /** Confirm, dismiss and delete: only on one's own edge, and only where they mean something. */
  lemma VerdictWrites(g: Graph, e: Event)
    ensures var a, t := e.action, Next(g, e);
            match a
            case Confirm(user, id) =>
              t == if && Mine(g.edges, id, user) && g.edges[id].status.Suggested?
                      && Owns(e.items, user, g.edges[id].target)
                   then g.(edges := g.edges[id := g.edges[id].(status := EdgeStatus.Confirmed,
                                                               confirmedAt := Some(e.now), dismissedAt := None)])
                   else g
            case Dismiss(user, id) =>
              t == if Mine(g.edges, id, user) && !g.edges[id].status.Dismissed?
                   then g.(edges := g.edges[id := g.edges[id].(status := EdgeStatus.Dismissed, confirmedAt := None,
                                                               dismissedAt := Some(e.now))])
                   else g
            case Delete(user, id) =>
              && t.next == g.next && (forall k | k in t.edges :: k in g.edges && t.edges[k] == g.edges[k])
              && (forall k | k in g.edges :: k in t.edges <==> !(k == id && g.edges[k].owner == user))
            case PurgeItem(item) =>
              && t.next == g.next && (forall k | k in t.edges :: k in g.edges && t.edges[k] == g.edges[k])
              && (forall k | k in g.edges :: k in t.edges <==> g.edges[k].source != item && g.edges[k].target != item)
            case _ => true
  {
  }

  // ---- the model proposes some ----

  /** A proposed row: a suggestion of the model's, running the way it was judged. */
  predicate ProposedAs(e: Edge, owner: UserId, item: ItemId, p: Proposal, now: Time) {
    && e.owner == owner && e.relation == p.relation && e.origin.Ai? && e.status.Suggested?
    && (if p.swap then Runs(e, p.relation, p.target, item) else Runs(e, p.relation, item, p.target))
    && e.score == p.score && e.aiReason == p.aiReason && e.note.None?
    && e.createdAt == now && e.confirmedAt.None? && e.dismissedAt.None?
  }

  /** What one proposal adds: nothing, or the row it asks for. */
  lemma OneSuggested(g: Graph, owner: UserId, item: ItemId, p: Proposal, now: Time)
    requires Valid(g)
    ensures var t := SuggestedOne(g, owner, item, p, now);
            if p.target == item || PairTaken(g.edges, owner, item, p.target) then t == g
            else Gained(g, t, g.next) && ProposedAs(t.edges[g.next], owner, item, p, now)
  {
  }

  ghost predicate FromBatch(e: Edge, owner: UserId, item: ItemId, ps: seq<Proposal>, now: Time) {
    exists p | p in ps :: p.target != item && ProposedAs(e, owner, item, p, now)
  }

  lemma LongerBatch(e: Edge, owner: UserId, item: ItemId, front: seq<Proposal>, last: Proposal, now: Time)
    ensures FromBatch(e, owner, item, front + [last], now) <==>
            FromBatch(e, owner, item, front, now) || (last.target != item && ProposedAs(e, owner, item, last, now))
  {
    assert last in front + [last] && forall p | p in front :: p in front + [last];
  }

  lemma {:induction false} BatchRows(g: Graph, owner: UserId, item: ItemId, ps: seq<Proposal>, now: Time)
    requires Valid(g)
    ensures var t := SuggestedMany(g, owner, item, ps, now);
            forall id | id in t.edges && id !in g.edges :: FromBatch(t.edges[id], owner, item, ps, now)
  {
    if ps != [] {
      var front, last := ps[..|ps| - 1], ps[|ps| - 1];
      assert ps == front + [last];
      BatchRows(g, owner, item, front, now);
      SuggestedManyKeepsValid(g, owner, item, front, now);
      var before, t := SuggestedMany(g, owner, item, front, now), SuggestedMany(g, owner, item, ps, now);
      OneSuggested(before, owner, item, last, now);
      forall id | id in t.edges && id !in g.edges
        ensures FromBatch(t.edges[id], owner, item, ps, now)
      {
        LongerBatch(t.edges[id], owner, item, front, last, now);
      }
    }
  }

  /** Every new row of a batch is one of its proposals, and each about another memory ends with a row for its pair. */
  lemma SuggestWrites(g: Graph, owner: UserId, item: ItemId, ps: seq<Proposal>, now: Time)
    requires Valid(g)
    ensures var t := SuggestedMany(g, owner, item, ps, now);
            && (forall id | id in g.edges :: id in t.edges && t.edges[id] == g.edges[id])
            && (forall id | id in t.edges && id !in g.edges :: FromBatch(t.edges[id], owner, item, ps, now))
            && (forall p | p in ps && p.target != item :: PairTaken(t.edges, owner, item, p.target))
  {
    SuggestedManyOnlyAdds(g, owner, item, ps, now);
    BatchRows(g, owner, item, ps, now);
    forall p | p in ps && p.target != item
      ensures PairTaken(SuggestedMany(g, owner, item, ps, now).edges, owner, item, p.target)
    {
      var i :| 0 <= i < |ps| && ps[i] == p;
      BatchTaken(g, owner, item, ps, now, i);
    }
  }
}
