/** The use-cases a person drives: each one checks ownership, writes through the repository, or changes nothing. */
module ConnectionServices {
  import opened Base
  import opened Rows
  import opened Edges

  datatype Typing = Typing(relation: Relation, swap: bool, reason: string)

  /** Why a retype got no label, or the label it got. */
  datatype TypingAnswer = SwitchedOff | OverQuota | NoAnswer | Typed(typing: Typing)

  datatype Reply = NotFound | Unavailable | ProviderFailed | Edited(edge: EdgeId, created: bool, far: ItemId) | Gone

  function CleanNote(note: Option<string>): Option<string> {
    if note.None? || Strip(note.value) == "" then None else Some(Strip(note.value))
  }

  /** The order an edge is stored in: as drawn, or from the lower id when the relation is symmetric. */
  function Oriented(source: ItemId, target: ItemId, relation: Relation): (ItemId, ItemId) {
    if Symmetric(relation) && source > target then (target, source) else (source, target)
  }

  function Normalised(e: Edge): Edge {
    if e.source <= e.target then e else Flipped(e)
  }

  function NormalisedFor(e: Edge, relation: Relation): Edge {
    if Symmetric(relation) then Normalised(e) else e
  }

  /** A write whose reply cannot be rendered is rolled back with its transaction. */
  function Saved(g: Graph, items: Items, user: UserId, id: EdgeId, e: Edge): Graph {
    if Owns(items, user, e.target) then g.(edges := g.edges[id := e]) else g
  }

  ghost function ConnectedBy(g: Graph, items: Items, user: UserId, source: ItemId, target: ItemId,
                           relation: Relation, note: Option<string>, now: Time): Graph {
    if source == target || !Owns(items, user, source) || !Owns(items, user, target) then g
    else
      var (s, t) := Oriented(source, target, relation);
      Upserted(g, user, s, t, relation, CleanNote(note), now)
  }

  function UpdatedEdge(e: Edge, relation: Option<Relation>, note: Option<string>): Edge {
    var clear := note.Some? && Strip(note.value) == "";
    var relabelled := Relabelled(e, relation, CleanNote(note), clear);
    if relation.Some? then NormalisedFor(relabelled, relation.value) else relabelled
  }

  function UpdatedBy(g: Graph, items: Items, user: UserId, id: EdgeId,
                   relation: Option<Relation>, note: Option<string>): Graph {
    if !Mine(g.edges, id, user) then g
    else Saved(g, items, user, id, UpdatedEdge(g.edges[id], relation, note))
  }

  function AcceptedBy(g: Graph, items: Items, user: UserId, id: EdgeId, now: Time): Graph {
    if !Mine(g.edges, id, user) || !g.edges[id].status.Suggested? then g
    else Saved(g, items, user, id, ConfirmedEdge(g.edges[id], now))
  }

  function RetypedEdge(e: Edge, typing: Typing): Edge {
    var ends := if typing.swap then Flipped(e) else e;
    NormalisedFor(
      ends.(relation := typing.relation, aiReason := if typing.reason == "" then None else Some(typing.reason)),
      typing.relation)
  }

  function RetypedBy(g: Graph, items: Items, user: UserId, id: EdgeId, answer: TypingAnswer): Graph {
    if || !answer.Typed? || !Mine(g.edges, id, user)
       || !Owns(items, user, g.edges[id].source) || !Owns(items, user, g.edges[id].target)
    then g
    else Saved(g, items, user, id, RetypedEdge(g.edges[id], answer.typing))
  }

  function DismissedBy(g: Graph, user: UserId, id: EdgeId, now: Time): Graph {
    if !Mine(g.edges, id, user) || g.edges[id].status.Dismissed? then g
    else g.(edges := g.edges[id := DismissedEdge(g.edges[id], now)])
  }

  function DeletedBy(g: Graph, user: UserId, id: EdgeId): Graph {
    if !Mine(g.edges, id, user) then g else g.(edges := g.edges - {id})
  }

  /** An edited edge is shown with the memory it points at, if that one can be shown. */
  function Shown(items: Items, user: UserId, id: EdgeId, e: Edge): Reply {
    if Owns(items, user, e.target) then Edited(id, false, e.target) else NotFound
  }

  /** Refused while switched off, for an edge that is not there, over quota, with an end missing, or unanswered. */
  function RetypeReply(edges: EdgeTable, items: Items, user: UserId, id: EdgeId, answer: TypingAnswer): Reply {
    if answer.SwitchedOff? then Unavailable
    else if !Mine(edges, id, user) then NotFound
    else if answer.OverQuota? then Unavailable
    else if !Owns(items, user, edges[id].source) || !Owns(items, user, edges[id].target) then NotFound
    else if answer.NoAnswer? then ProviderFailed
    else Shown(items, user, id, RetypedEdge(edges[id], answer.typing))
  }

  // ---- the service, in place ----

  class ConnectionService {
    const repo: ConnectionRepository
    /** What the vault reads of this transaction see. */
    var items: Items

    constructor (repo: ConnectionRepository, items: Items)
      ensures this.repo == repo && this.items == items
    {
      this.repo, this.items := repo, items;
    }

    method Connect(user: UserId, source: ItemId, target: ItemId, relation: Relation, note: Option<string>, now: Time)
      returns (reply: Reply)
      requires Valid(repo.State())
      modifies repo
      ensures Valid(repo.State())
      ensures repo.State() == ConnectedBy(old(repo.State()), items, user, source, target, relation, note, now)
      ensures if source == target || !Owns(items, user, source) || !Owns(items, user, target) then reply.NotFound?
              else && reply.Edited? && reply.far == target
                   && reply.edge in repo.edges && HasPair(repo.edges[reply.edge], user, source, target)
                   && (reply.created <==> !PairTaken(old(repo.edges), user, source, target))
    {
      if source == target || !Owns(items, user, source) || !Owns(items, user, target) {
        return NotFound;
      }
      var (s, t) := Oriented(source, target, relation);
      var id, created := repo.UpsertManual(user, s, t, relation, CleanNote(note), now);
      reply := Edited(id, created, target);
    }

    method Update(id: EdgeId, user: UserId, relation: Option<Relation>, note: Option<string>) returns (reply: Reply)
      modifies repo`edges
      ensures repo.State() == UpdatedBy(old(repo.State()), items, user, id, relation, note)
      ensures reply == if Mine(old(repo.edges), id, user)
                       then Shown(items, user, id, UpdatedEdge(old(repo.edges)[id], relation, note)) else NotFound
    {
      var transaction := repo.edges;
      var clear := note.Some? && Strip(note.value) == "";
      var found := repo.UpdateScoped(id, user, relation, if clear then None else CleanNote(note), clear);
      if !found {
        return NotFound;
      }
      if relation.Some? && Symmetric(relation.value) {
        Normalise(id);
      }
      reply := FarEnd(id, user);
      if reply.NotFound? {
        repo.edges := transaction;
      }
    }

    method Confirm(id: EdgeId, user: UserId, now: Time) returns (reply: Reply)
      modifies repo`edges
      ensures repo.State() == AcceptedBy(old(repo.State()), items, user, id, now)
      ensures reply == if Mine(old(repo.edges), id, user) && old(repo.edges)[id].status.Suggested?
                       then Shown(items, user, id, old(repo.edges)[id]) else NotFound
    {
      var transaction := repo.edges;
      var found := repo.Confirm(id, user, now);
      if !found {
        return NotFound;
      }
      reply := FarEnd(id, user);
      if reply.NotFound? {
        repo.edges := transaction;
      }
    }

    method Retype(id: EdgeId, user: UserId, answer: TypingAnswer) returns (reply: Reply)
      modifies repo`edges
      ensures repo.State() == RetypedBy(old(repo.State()), items, user, id, answer)
      ensures reply == RetypeReply(old(repo.edges), items, user, id, answer)
    {
      if answer.SwitchedOff? {
        return Unavailable;
      }
      if !Mine(repo.edges, id, user) {
        return NotFound;
      }
      if answer.OverQuota? {
        return Unavailable;
      }
      var connection := repo.edges[id];
      if !Owns(items, user, connection.source) || !Owns(items, user, connection.target) {
        return NotFound;
      }
      if answer.NoAnswer? {
        return ProviderFailed;
      }
      if answer.typing.swap {
        connection := connection.(source := connection.target, target := connection.source);
      }
      connection := connection.(relation := answer.typing.relation);
      connection := connection.(aiReason := if answer.typing.reason == "" then None else Some(answer.typing.reason));
      repo.edges := repo.edges[id := connection];
      if Symmetric(answer.typing.relation) {
        Normalise(id);
      }
      reply := FarEnd(id, user);
    }

    method Dismiss(id: EdgeId, user: UserId, now: Time) returns (reply: Reply)
      modifies repo`edges
      ensures repo.State() == DismissedBy(old(repo.State()), user, id, now)
      ensures reply == if Mine(old(repo.edges), id, user) && !old(repo.edges)[id].status.Dismissed? then Gone
                       else NotFound
    {
      var found := repo.Dismiss(id, user, now);
      reply := if found then Gone else NotFound;
    }

    method Delete(id: EdgeId, user: UserId) returns (reply: Reply)
      modifies repo`edges
      ensures repo.State() == DeletedBy(old(repo.State()), user, id)
      ensures reply == if Mine(old(repo.edges), id, user) then Gone else NotFound
    {
      var found := repo.DeleteScoped(id, user);
      reply := if found then Gone else NotFound;
    }

    /** Points a symmetric edge from the lower id. */
    method Normalise(id: EdgeId)
      requires id in repo.edges
      modifies repo`edges
      ensures repo.edges == old(repo.edges)[id := Normalised(old(repo.edges)[id])]
    {
      var connection := repo.edges[id];
      if connection.source <= connection.target {
        return;
      }
      connection := connection.(source := connection.target, target := connection.source);
      repo.edges := repo.edges[id := connection];
    }

    /** The memory at the stored target, re-checked; `NotFound` makes the request roll back. */
    method FarEnd(id: EdgeId, user: UserId) returns (reply: Reply)
      requires id in repo.edges
      ensures reply == if Owns(items, user, repo.edges[id].target)
                       then Edited(id, false, repo.edges[id].target) else NotFound
    {
      var other := repo.edges[id].target;
      reply := if Owns(items, user, other) then Edited(id, false, other) else NotFound;
    }
  }
}
