/**
 The connection table: one directional row per unordered pair of one person's memories, and what
 each statement of the repository does to it.
 */
module Edges {
  import opened Base
  import opened Rows

  type EdgeId = nat

  datatype Relation =
    RelatedTo | DuplicateOf | Expands | Supports | Contradicts | InspiredBy | DependsOn | ExampleOf | PartOf

  predicate Symmetric(relation: Relation) {
    relation.RelatedTo? || relation.Contradicts? || relation.DuplicateOf?
  }

  datatype Origin = User | Ai
  datatype EdgeStatus = Suggested | Confirmed | Dismissed

  datatype Edge = Edge(
    owner: UserId, source: ItemId, target: ItemId, relation: Relation, origin: Origin, status: EdgeStatus,
    score: Option<real>, note: Option<string>, aiReason: Option<string>,
    createdAt: Time, confirmedAt: Option<Time>, dismissedAt: Option<Time>)

  type EdgeTable = map<EdgeId, Edge>

  /** The table and the id the next inserted row takes. */
  datatype Graph = Graph(edges: EdgeTable, next: EdgeId)

  datatype Proposal = Proposal(
    target: ItemId, score: Option<real>, relation: Relation, aiReason: Option<string>, swap: bool)

  // ---- the unique key and the other constraints ----

  /** The row's `(user_id, pair_low, pair_high)` is the one of these two ids. */
  predicate HasPair(e: Edge, owner: UserId, a: ItemId, b: ItemId) {
    e.owner == owner && ((e.source == a && e.target == b) || (e.source == b && e.target == a))
  }

  predicate PairTaken(edges: EdgeTable, owner: UserId, a: ItemId, b: ItemId) {
    exists id | id in edges :: HasPair(edges[id], owner, a, b)
  }

  ghost function PairRow(edges: EdgeTable, owner: UserId, a: ItemId, b: ItemId): (id: EdgeId)
    requires PairTaken(edges, owner, a, b)
    ensures id in edges && HasPair(edges[id], owner, a, b)
  {
    var id :| id in edges && HasPair(edges[id], owner, a, b);
    id
  }

  predicate Touches(e: Edge, item: ItemId) {
    e.source == item || e.target == item
  }

  /** What every single row keeps. */
  predicate ValidEdge(e: Edge) {
    && e.source != e.target
    && (e.status.Confirmed? <==> e.confirmedAt.Some?)
    && (e.status.Dismissed? <==> e.dismissedAt.Some?)
    && (e.origin.User? ==> e.score.None? && !e.status.Suggested?)
  }

  ghost predicate UniquePairs(edges: EdgeTable) {
    forall i, j | i in edges && j in edges && HasPair(edges[i], edges[j].owner, edges[j].source, edges[j].target) ::
        i == j
  }

  ghost predicate Valid(g: Graph) {
    && (forall id | id in g.edges :: ValidEdge(g.edges[id]) && id < g.next)
    && UniquePairs(g.edges)
  }

  // ---- writers ----

  function Revived(e: Edge, relation: Relation, note: Option<string>, now: Time): Edge {
    e.(relation := relation, origin := User, status := Confirmed, note := note, aiReason := None,
       score := None, dismissedAt := None, confirmedAt := Some(now))
  }

  /** `upsert_manual`: a new row, or the pair's row revived with the ends it already had. */
  ghost function Upserted(g: Graph, owner: UserId, source: ItemId, target: ItemId,
                          relation: Relation, note: Option<string>, now: Time): Graph {
    if PairTaken(g.edges, owner, source, target) then
      var id := PairRow(g.edges, owner, source, target);
      g.(edges := g.edges[id := Revived(g.edges[id], relation, note, now)])
    else
      Inserted(g, Edge(owner, source, target, relation, User, Confirmed, None, note, None, now, Some(now), None))
  }

  function Inserted(g: Graph, e: Edge): Graph {
    Graph(g.edges[g.next := e], g.next + 1)
  }

  /** Which way round a proposed edge is written down. */
  function StoredEnds(source: ItemId, p: Proposal): (ItemId, ItemId) {
    var (s, t) := if p.swap then (p.target, source) else (source, p.target);
    if Symmetric(p.relation) && s > t then (t, s) else (s, t)
  }

  function ProposedEdge(owner: UserId, source: ItemId, p: Proposal, now: Time): Edge {
    var (s, t) := StoredEnds(source, p);
    Edge(owner, s, t, p.relation, Ai, Suggested, p.score, None, p.aiReason, now, None, None)
  }

  /** One row of `suggest_many`: a self-proposal is skipped and a taken pair is left alone. */
  function SuggestedOne(g: Graph, owner: UserId, source: ItemId, p: Proposal, now: Time): Graph {
    if p.target == source || PairTaken(g.edges, owner, source, p.target) then g
    else Inserted(g, ProposedEdge(owner, source, p, now))
  }

  function SuggestedMany(g: Graph, owner: UserId, source: ItemId, ps: seq<Proposal>, now: Time): Graph {
    if ps == [] then g
    else SuggestedOne(SuggestedMany(g, owner, source, ps[..|ps| - 1], now), owner, source, ps[|ps| - 1], now)
  }

  predicate Mine(edges: EdgeTable, id: EdgeId, user: UserId) {
    id in edges && edges[id].owner == user
  }

  function Relabelled(e: Edge, relation: Option<Relation>, note: Option<string>, clearNote: bool): Edge {
    e.(relation := relation.GetOr(e.relation),
       note := if clearNote then None else if note.Some? then note else e.note)
  }

  function DismissedEdge(e: Edge, now: Time): Edge {
    e.(status := Dismissed, dismissedAt := Some(now), confirmedAt := None)
  }

  function ConfirmedEdge(e: Edge, now: Time): Edge {
    e.(status := Confirmed, confirmedAt := Some(now), dismissedAt := None)
  }

  function Flipped(e: Edge): Edge {
    e.(source := e.target, target := e.source)
  }

  function WithoutItem(edges: EdgeTable, item: ItemId): EdgeTable {
    map id | id in edges && !Touches(edges[id], item) :: edges[id]
  }

  // ---- every writer keeps the constraints ----

  lemma InsertKeepsValid(g: Graph, e: Edge)
    requires Valid(g) && ValidEdge(e) && !PairTaken(g.edges, e.owner, e.source, e.target)
    ensures Valid(Inserted(g, e))
  {
  }

  /** A row may be rewritten freely as long as it stays legal and keeps its pair. */
  lemma RewriteKeepsValid(g: Graph, id: EdgeId, e: Edge)
    requires Valid(g) && id in g.edges && ValidEdge(e)
    requires HasPair(e, g.edges[id].owner, g.edges[id].source, g.edges[id].target)
    ensures Valid(g.(edges := g.edges[id := e]))
  {
  }

  lemma PairRowIsTheRow(edges: EdgeTable, id: EdgeId, owner: UserId, a: ItemId, b: ItemId)
    requires UniquePairs(edges) && id in edges && HasPair(edges[id], owner, a, b)
    ensures PairTaken(edges, owner, a, b) && PairRow(edges, owner, a, b) == id
  {
    var other := PairRow(edges, owner, a, b);
    assert HasPair(edges[other], edges[id].owner, edges[id].source, edges[id].target);
  }

  // ---- the repository, in place ----

  class ConnectionRepository {
    var edges: EdgeTable
    var next: EdgeId

    constructor (g: Graph)
      ensures State() == g
    {
      edges, next := g.edges, g.next;
    }

    ghost function State(): Graph
      reads this
    {
      Graph(edges, next)
    }

    method UpsertManual(owner: UserId, source: ItemId, target: ItemId,
                        relation: Relation, note: Option<string>, now: Time)
      returns (id: EdgeId, created: bool)
      requires Valid(State()) && source != target
      modifies this
      ensures Valid(State())
      ensures State() == Upserted(old(State()), owner, source, target, relation, note, now)
      ensures created <==> !PairTaken(old(edges), owner, source, target)
      ensures id in edges && HasPair(edges[id], owner, source, target) && edges[id].status.Confirmed?
    {
      ghost var g := State();
      if taken :| taken in edges && HasPair(edges[taken], owner, source, target) {
        id, created := taken, false;
        PairRowIsTheRow(edges, id, owner, source, target);
        RewriteKeepsValid(g, id, Revived(edges[id], relation, note, now));
        edges := edges[id := Revived(edges[id], relation, note, now)];
      } else {
        id, created := next, true;
        var row := Edge(owner, source, target, relation, User, Confirmed, None, note, None, now, Some(now), None);
        InsertKeepsValid(g, row);
        edges := edges[id := row];
        next := next + 1;
      }
    }

    method SuggestMany(owner: UserId, source: ItemId, candidates: seq<Proposal>, now: Time) returns (written: nat)
      requires Valid(State())
      modifies this
      ensures Valid(State())
      ensures State() == SuggestedMany(old(State()), owner, source, candidates, now)
      ensures written == |edges| - |old(edges)|
    {
      written := 0;
      for i := 0 to |candidates|
        invariant Valid(State())
        invariant State() == SuggestedMany(old(State()), owner, source, candidates[..i], now)
        invariant written == |edges| - |old(edges)|
      {
        assert candidates[..i + 1][..i] == candidates[..i];
        var p := candidates[i];
        if p.target == source || PairTaken(edges, owner, source, p.target) {
          continue;
        }
        var (s, t) := StoredEnds(source, p);
        edges := edges[next := Edge(owner, s, t, p.relation, Ai, Suggested, p.score, None, p.aiReason, now, None,
            None)];
        next := next + 1;
        written := written + 1;
      }
      assert candidates[..|candidates|] == candidates;
    }

    method CountForItem(owner: UserId, item: ItemId) returns (n: nat)
      ensures n == |EdgesOf(edges, owner, item)|
    {
      n := |EdgesOf(edges, owner, item)|;
    }

    method UpdateScoped(id: EdgeId, user: UserId, relation: Option<Relation>, note: Option<string>, clearNote: bool)
      returns (found: bool)
      modifies `edges
      ensures found <==> Mine(old(edges), id, user)
      ensures edges == if found then old(edges)[id := Relabelled(old(edges)[id], relation, note, clearNote)]
              else old(edges)
    {
      if !Mine(edges, id, user) {
        return false;
      }
      var row := edges[id];
      if relation.Some? {
        row := row.(relation := relation.value);
      }
      if clearNote {
        row := row.(note := None);
      } else if note.Some? {
        row := row.(note := note);
      }
      edges := edges[id := row];
      found := true;
    }

    method DeleteScoped(id: EdgeId, user: UserId) returns (found: bool)
      modifies `edges
      ensures found <==> Mine(old(edges), id, user)
      ensures edges == if found then old(edges) - {id} else old(edges)
    {
      found := Mine(edges, id, user);
      if found {
        edges := edges - {id};
      }
    }

    method Dismiss(id: EdgeId, user: UserId, now: Time) returns (found: bool)
      modifies `edges
      ensures found <==> Mine(old(edges), id, user) && !old(edges)[id].status.Dismissed?
      ensures edges == if found then old(edges)[id := DismissedEdge(old(edges)[id], now)] else old(edges)
    {
      found := Mine(edges, id, user) && !edges[id].status.Dismissed?;
      if found {
        var row := edges[id].(status := Dismissed);
        row := row.(dismissedAt := Some(now));
        row := row.(confirmedAt := None);
        edges := edges[id := row];
      }
    }

    method Confirm(id: EdgeId, user: UserId, now: Time) returns (found: bool)
      modifies `edges
      ensures found <==> Mine(old(edges), id, user) && old(edges)[id].status.Suggested?
      ensures edges == if found then old(edges)[id := ConfirmedEdge(old(edges)[id], now)] else old(edges)
    {
      found := Mine(edges, id, user) && edges[id].status.Suggested?;
      if found {
        var row := edges[id].(status := Confirmed);
        row := row.(confirmedAt := Some(now));
        row := row.(dismissedAt := None);
        edges := edges[id := row];
      }
    }

    method DeleteForItem(item: ItemId) returns (gone: nat)
      modifies `edges
      ensures edges == WithoutItem(old(edges), item)
      ensures gone == |old(edges).Keys - edges.Keys|
    {
      var before := edges;
      edges := map id | id in edges && !Touches(edges[id], item) :: edges[id];
      gone := |before.Keys - edges.Keys|;
    }
  }

  /** The rows `count_for_item` counts: every edge of this owner at this memory, whatever its status. */
  function EdgesOf(edges: EdgeTable, owner: UserId, item: ItemId): set<EdgeId> {
    set id | id in edges && edges[id].owner == owner && Touches(edges[id], item)
  }
}
