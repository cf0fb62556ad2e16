/** Trash, restore and purge as the repository performs them on its rows. */
module Vault {
  import opened Base
  import opened Rows
  import opened Lifecycle
  import opened Edges
  import P = Protocol

  class VaultRepository {
    var items: Items
    var chunks: map<(ItemId, nat), Chunk>
    var edges: EdgeTable

    constructor (items: Items, chunks: map<(ItemId, nat), Chunk>, edges: EdgeTable)
      ensures this.items == items && this.chunks == chunks && this.edges == edges
    {
      this.items, this.chunks, this.edges := items, chunks, edges;
    }

    /** `delete`: only the tombstone is written, so everything else stays for a restore. */
    method Trash(user: UserId, id: ItemId, now: Time) returns (done: bool)
      modifies `items
      ensures done <==> Owns(old(items), user, id)
      ensures items == if done then old(items)[id := P.Trashed(old(items)[id], now)] else old(items)
    {
      done := Owns(items, user, id);
      if done {
        var item := items[id].(deletedAt := Some(now));
        items := items[id := item.(updatedAt := now)];
      }
    }

    method Restore(user: UserId, id: ItemId, now: Time) returns (done: bool)
      modifies `items
      ensures done <==> Restorable(old(items), user, id)
      ensures items == if done then old(items)[id := P.Restored(old(items)[id], now)] else old(items)
    {
      done := Restorable(items, user, id);
      if done {
        var item := items[id].(deletedAt := None);
        items := items[id := item.(updatedAt := now)];
      }
    }

    /** The owner's "delete forever": refused for anything that is not in the trash. */
    method Purge(user: UserId, id: ItemId, now: Time) returns (done: bool)
      modifies this
      ensures done <==> Restorable(old(items), user, id)
      ensures !done ==> items == old(items) && chunks == old(chunks) && edges == old(edges)
      ensures done ==> && items == old(items)[id := P.Scrubbed(old(items)[id], now)]
                       && chunks == P.WithoutChunks(old(chunks), id) && edges == WithoutItem(old(edges), id)
    {
      done := Restorable(items, user, id);
      if done {
        Scrub(id, now);
      }
    }

    method Scrub(id: ItemId, now: Time)
      requires id in items
      modifies this
      ensures items == old(items)[id := P.Scrubbed(old(items)[id], now)]
      ensures chunks == P.WithoutChunks(old(chunks), id) && edges == WithoutItem(old(edges), id)
    {
      var item := items[id].(purgedAt := Some(now));
      if item.deletedAt.None? {
        item := item.(deletedAt := Some(now));
      }
      item := item.(details := SCRUBBED, sourceUrl := None);
      item := item.(error := None);
      items := items[id := item.(updatedAt := now)];
      chunks := map key | key in chunks && key.0 != id :: chunks[key];
      edges := map e | e in edges && !Touches(edges[e], id) :: edges[e];
    }

    /** `purge_expired`: one batch of rows whose window has run out. */
    method PurgeExpired(rows: seq<ItemId>, now: Time)
      requires forall id | id in rows :: id in items
      modifies this
      ensures forall s: Store | s.items == old(items) && s.chunks == old(chunks) && s.now == now ::
                items == P.PurgedRows(s, rows).items && chunks == P.PurgedRows(s, rows).chunks
      ensures forall e :: e in edges <==>
                e in old(edges) && old(edges)[e].source !in rows && old(edges)[e].target !in rows
      ensures forall e | e in edges :: edges[e] == old(edges)[e]
    {
      ghost var before := Store(items, map[], chunks, [], now);
      for i := 0 to |rows|
        invariant items.Keys == old(items).Keys
        invariant items == P.PurgedRows(before, rows[..i]).items && chunks == P.PurgedRows(before, rows[..i]).chunks
        invariant P.PurgedRows(before, rows[..i]).now == now
        invariant forall e :: e in edges <==>
                    e in old(edges) && old(edges)[e].source !in rows[..i] && old(edges)[e].target !in rows[..i]
        invariant forall e | e in edges :: edges[e] == old(edges)[e]
      {
        assert rows[..i + 1] == rows[..i] + [rows[i]] && rows[..i + 1][..i] == rows[..i];
        Scrub(rows[i], now);
      }
      assert rows[..|rows|] == rows;
      forall s: Store | s.items == before.items && s.chunks == before.chunks && s.now == now
        ensures items == P.PurgedRows(s, rows).items && chunks == P.PurgedRows(s, rows).chunks
      {
        PurgedRowsReadOnlyRows(before, s, rows);
      }
    }
  }

  lemma {:induction false} PurgedRowsReadOnlyRows(s: Store, t: Store, rows: seq<ItemId>)
    requires s.items == t.items && s.chunks == t.chunks && s.now == t.now
    requires forall id | id in rows :: id in s.items
    ensures P.PurgedRows(s, rows).items == P.PurgedRows(t, rows).items
    ensures P.PurgedRows(s, rows).chunks == P.PurgedRows(t, rows).chunks
    ensures P.PurgedRows(s, rows).now == P.PurgedRows(t, rows).now
  {
    if rows != [] {
      PurgedRowsReadOnlyRows(s, t, rows[..|rows| - 1]);
    }
  }
}
