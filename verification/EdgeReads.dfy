/** Reading the connection table from both ends: an edge is stored once and listed from either memory. */
module EdgeReads {
  import opened Base
  import opened Rows
  import opened Edges

  datatype Direction = Outgoing | Incoming

  /** One edge read from one of its ends. */
  datatype EndRow = EndRow(edge: EdgeId, direction: Direction)

  function AskedEnd(e: Edge, d: Direction): ItemId {
    if d.Outgoing? then e.source else e.target
  }

  function OtherEnd(e: Edge, d: Direction): ItemId {
    if d.Outgoing? then e.target else e.source
  }

  predicate Wanted(e: Edge, user: UserId, statuses: set<EdgeStatus>, relation: Option<Relation>) {
    && e.owner == user && e.status in (if statuses == {} then {Confirmed} else statuses)
    && (relation.Some? ==> e.relation == relation.value)
  }

  /** One half of the union in `list_for_item`, joined with its live neighbour. */
  function Half(edges: EdgeTable, items: Items, user: UserId, item: ItemId,
                statuses: set<EdgeStatus>, relation: Option<Relation>, d: Direction): set<EndRow> {
    set id | id in edges && Wanted(edges[id], user, statuses, relation)
             && AskedEnd(edges[id], d) == item && Owns(items, user, OtherEnd(edges[id], d)) :: EndRow(id, d)
  }

  /** Everything `list_for_item` pages over; its total is the size of this set. */
  function Neighbourhood(edges: EdgeTable, items: Items, user: UserId, item: ItemId,
                         statuses: set<EdgeStatus>, relation: Option<Relation>): set<EndRow> {
    Half(edges, items, user, item, statuses, relation, Outgoing) +
    Half(edges, items, user, item, statuses, relation, Incoming)
  }

  /** The same question asked the obvious way: one predicate over both columns. */
  function EdgesAt(edges: EdgeTable, items: Items, user: UserId, item: ItemId,
                   statuses: set<EdgeStatus>, relation: Option<Relation>): set<EdgeId> {
    set id | id in edges && Wanted(edges[id], user, statuses, relation) && Touches(edges[id], item)
             && Owns(items, user, if edges[id].source == item then edges[id].target else edges[id].source)
  }

  /** A page of the listing, newest first, and the total that rides on its rows. */
  ghost predicate IsNeighbourPage(edges: EdgeTable, all: set<EndRow>, limit: nat, page: seq<EndRow>, total: nat) {
    && IsListing(all, limit, page) && (forall r | r in all :: r.edge in edges)
    && (forall i, j | 0 <= i < j < |page| :: edges[page[i].edge].createdAt >= edges[page[j].edge].createdAt)
    && (forall r, x | r in page && x in all && x !in page :: edges[r.edge].createdAt >= edges[x.edge].createdAt)
    && total == if page == [] then 0 else |all|
  }

  /** The end table: every edge, once per end. */
  function Endpoints(edges: EdgeTable): set<EndRow> {
    (set id | id in edges :: EndRow(id, Outgoing)) + (set id | id in edges :: EndRow(id, Incoming))
  }

  /** This end of the edge counts for the memory asked about: confirmed, and the other memory is there. */
  predicate Counts(edges: EdgeTable, items: Items, user: UserId, r: EndRow) {
    && r.edge in edges && edges[r.edge].owner == user && edges[r.edge].status.Confirmed?
    && Owns(items, user, OtherEnd(edges[r.edge], r.direction))
  }

  function CountedAt(edges: EdgeTable, items: Items, user: UserId, item: ItemId): set<EndRow> {
    set r | r in Endpoints(edges) && Counts(edges, items, user, r) && AskedEnd(edges[r.edge], r.direction) == item
  }

  /** `counts_for_items`: a grouped count, so a memory with no edge has no entry. */
  function CountsForItems(edges: EdgeTable, items: Items, user: UserId, ids: seq<ItemId>): map<ItemId, nat> {
    map id | id in ids && CountedAt(edges, items, user, id) != {} :: |CountedAt(edges, items, user, id)|
  }

  function CountOf(counts: map<ItemId, nat>, id: ItemId): nat {
    if id in counts then counts[id] else 0
  }

  /**
   A row of the listing is an edge of this person's with a wanted status (confirmed, unless others are
   asked for) and label, read from the end the memory stands at, whose other end is live and theirs.
   */
  lemma ListedIs(edges: EdgeTable, items: Items, user: UserId, item: ItemId,
                 statuses: set<EdgeStatus>, relation: Option<Relation>, id: EdgeId, d: Direction)
    ensures EndRow(id, d) in Neighbourhood(edges, items, user, item, statuses, relation) <==>
            && id in edges && edges[id].owner == user
            && (if statuses == {} then edges[id].status.Confirmed? else edges[id].status in statuses)
            && (relation.None? || edges[id].relation == relation.value)
            && match d
               case Outgoing => edges[id].source == item && Live(items, edges[id].target)
                                && items[edges[id].target].owner == user
               case Incoming => edges[id].target == item && Live(items, edges[id].source)
                                && items[edges[id].source].owner == user
  {
    assert EndRow(id, d) in Neighbourhood(edges, items, user, item, statuses, relation) <==>
           EndRow(id, d) in Half(edges, items, user, item, statuses, relation, d);
  }

  // ---- the union lists each edge once ----

  lemma {:induction false} SameSize(rows: set<EndRow>, ids: set<EdgeId>)
    requires forall r | r in rows :: r.edge in ids
    requires forall id | id in ids :: exists r :: r in rows && r.edge == id
    requires forall r, r' | r in rows && r' in rows && r.edge == r'.edge :: r == r'
    ensures |rows| == |ids|
  {
    if rows == {} {
      assert forall id :: id !in ids;
    } else {
      var r :| r in rows;
      var rest, fewer := rows - {r}, ids - {r.edge};
      forall id | id in fewer
        ensures exists x :: x in rest && x.edge == id
      {
        var x :| x in rows && x.edge == id;
        assert x in rest;
      }
      SameSize(rest, fewer);
    }
  }

  lemma RowOf(edges: EdgeTable, items: Items, user: UserId, item: ItemId,
              statuses: set<EdgeStatus>, relation: Option<Relation>, id: EdgeId) returns (r: EndRow)
    requires id in EdgesAt(edges, items, user, item, statuses, relation)
    ensures r in Neighbourhood(edges, items, user, item, statuses, relation) && r.edge == id
  {
    r := EndRow(id, if edges[id].source == item then Outgoing else Incoming);
    assert r in Half(edges, items, user, item, statuses, relation, r.direction);
  }

  /**
   Without self-edges, the union of the two halves lists every edge at the memory exactly once,
   and nothing else: it has as many rows as the plain disjunction has edges.
   */
  lemma UnionListsEachEdgeOnce(g: Graph, items: Items, user: UserId, item: ItemId,
                               statuses: set<EdgeStatus>, relation: Option<Relation>)
    requires Valid(g)
    ensures var rows := Neighbourhood(g.edges, items, user, item, statuses, relation);
            var ids := EdgesAt(g.edges, items, user, item, statuses, relation);
            && |rows| == |ids|
            && (forall id :: id in ids <==> exists r :: r in rows && r.edge == id)
            && (forall r, r' | r in rows && r' in rows && r.edge == r'.edge :: r == r')
  {
    var rows := Neighbourhood(g.edges, items, user, item, statuses, relation);
    var ids := EdgesAt(g.edges, items, user, item, statuses, relation);
    forall id | id in ids
      ensures exists r :: r in rows && r.edge == id
    {
      var r := RowOf(g.edges, items, user, item, statuses, relation, id);
    }
    SameSize(rows, ids);
  }

  /** An edge leaves live A towards B exactly when it arrives at live B from A. */
  lemma OutgoingIsIncoming(edges: EdgeTable, items: Items, user: UserId, a: ItemId, b: ItemId, id: EdgeId,
                           statuses: set<EdgeStatus>, relation: Option<Relation>)
    requires Owns(items, user, a) && Owns(items, user, b) && id in edges
    ensures EndRow(id, Outgoing) in Neighbourhood(edges, items, user, a, statuses, relation) && edges[id].target == b
       <==> EndRow(id, Incoming) in Neighbourhood(edges, items, user, b, statuses, relation) && edges[id].source == a
  {
    assert EndRow(id, Outgoing) in Neighbourhood(edges, items, user, a, statuses, relation)
      <==> EndRow(id, Outgoing) in Half(edges, items, user, a, statuses, relation, Outgoing);
    assert EndRow(id, Incoming) in Neighbourhood(edges, items, user, b, statuses, relation)
      <==> EndRow(id, Incoming) in Half(edges, items, user, b, statuses, relation, Incoming);
  }

  // ---- the count agrees with the listing ----

  lemma EveryEnd(edges: EdgeTable, r: EndRow)
    ensures r in Endpoints(edges) <==> r.edge in edges
  {
    assert r.direction.Outgoing? ==> r == EndRow(r.edge, Outgoing);
    assert r.direction.Incoming? ==> r == EndRow(r.edge, Incoming);
  }

  lemma CountedIsListed(edges: EdgeTable, items: Items, user: UserId, id: ItemId, r: EndRow)
    ensures r in CountedAt(edges, items, user, id) <==> r in Neighbourhood(edges, items, user, id, {}, None)
  {
    EveryEnd(edges, r);
    if r.edge in edges {
      assert Wanted(edges[r.edge], user, {}, None) <==> edges[r.edge].owner == user && edges[r.edge].status.Confirmed?;
    }
    assert r in Half(edges, items, user, id, {}, None, r.direction) <==>
           Counts(edges, items, user, r) && AskedEnd(edges[r.edge], r.direction) == id;
  }

  /** The badge on a card and the page behind it never disagree: the count is the default listing's total. */
  lemma CountsAreListingTotals(edges: EdgeTable, items: Items, user: UserId, ids: seq<ItemId>, id: ItemId,
                               limit: nat, page: seq<EndRow>, total: nat)
    requires id in ids && limit > 0
    requires IsNeighbourPage(edges, Neighbourhood(edges, items, user, id, {}, None), limit, page, total)
    ensures CountOf(CountsForItems(edges, items, user, ids), id) == total
  {
    forall r
      ensures r in CountedAt(edges, items, user, id) <==> r in Neighbourhood(edges, items, user, id, {}, None)
    {
      CountedIsListed(edges, items, user, id, r);
    }
    assert CountedAt(edges, items, user, id) == Neighbourhood(edges, items, user, id, {}, None);
  }

  // ---- the counts of a whole vault ----

  function SumOfCounts(edges: EdgeTable, items: Items, user: UserId, ids: seq<ItemId>): nat {
    if ids == [] then 0
    else SumOfCounts(edges, items, user, ids[..|ids| - 1]) + |CountedAt(edges, items, user, ids[|ids| - 1])|
  }

  function CountedAmong(edges: EdgeTable, items: Items, user: UserId, ids: seq<ItemId>): set<EndRow> {
    set r | r in Endpoints(edges) && Counts(edges, items, user, r) && AskedEnd(edges[r.edge], r.direction) in ids
  }

  lemma CountedSplit(edges: EdgeTable, items: Items, user: UserId, front: seq<ItemId>, last: ItemId)
    requires last !in front
    ensures CountedAmong(edges, items, user, front + [last])
         == CountedAmong(edges, items, user, front) + CountedAt(edges, items, user, last)
    ensures CountedAmong(edges, items, user, front) !! CountedAt(edges, items, user, last)
  {
    assert forall id :: id in front + [last] <==> id in front || id == last;
  }

  lemma {:induction false} SumIsRows(edges: EdgeTable, items: Items, user: UserId, ids: seq<ItemId>)
    requires Distinct(ids)
    ensures SumOfCounts(edges, items, user, ids) == |CountedAmong(edges, items, user, ids)|
  {
    if ids == [] {
      assert CountedAmong(edges, items, user, ids) == {};
    } else {
      var front, last := ids[..|ids| - 1], ids[|ids| - 1];
      SumIsRows(edges, items, user, front);
      assert ids == front + [last] && last !in front;
      CountedSplit(edges, items, user, front, last);
    }
  }

  /** The confirmed edges of this person whose two memories are both live. */
  function LiveEdges(edges: EdgeTable, items: Items, user: UserId): set<EdgeId> {
    set id | id in edges && edges[id].owner == user && edges[id].status.Confirmed?
             && Owns(items, user, edges[id].source) && Owns(items, user, edges[id].target)
  }

  lemma CountedAmongLive(edges: EdgeTable, items: Items, user: UserId, ids: seq<ItemId>, r: EndRow)
    requires forall id :: id in ids <==> Owns(items, user, id)
    ensures r in CountedAmong(edges, items, user, ids) <==> r.edge in LiveEdges(edges, items, user)
  {
    EveryEnd(edges, r);
  }

  lemma OneEndEach(rows: set<EndRow>, live: set<EdgeId>, d: Direction)
    requires forall r :: r in rows <==> r.edge in live
    ensures |set r | r in rows && r.direction == d| == |live|
  {
    var half := set r | r in rows && r.direction == d;
    forall id | id in live
      ensures exists r :: r in half && r.edge == id
    {
      assert EndRow(id, d) in half;
    }
    SameSize(half, live);
  }

  lemma TwoEndsEach(rows: set<EndRow>, live: set<EdgeId>)
    requires forall r :: r in rows <==> r.edge in live
    ensures |rows| == 2 * |live|
  {
    var out := set r | r in rows && r.direction == Outgoing;
    var inc := set r | r in rows && r.direction == Incoming;
    OneEndEach(rows, live, Outgoing);
    OneEndEach(rows, live, Incoming);
    assert rows == out + inc && out !! inc;
  }

  /** Summed over every live memory, each confirmed edge between live memories is counted exactly twice. */
  lemma Handshake(edges: EdgeTable, items: Items, user: UserId, ids: seq<ItemId>)
    requires Distinct(ids) && forall id :: id in ids <==> Owns(items, user, id)
    ensures SumOfCounts(edges, items, user, ids) == 2 * |LiveEdges(edges, items, user)|
  {
    SumIsRows(edges, items, user, ids);
    forall r
      ensures r in CountedAmong(edges, items, user, ids) <==> r.edge in LiveEdges(edges, items, user)
    {
      CountedAmongLive(edges, items, user, ids, r);
    }
    TwoEndsEach(CountedAmong(edges, items, user, ids), LiveEdges(edges, items, user));
  }
}
