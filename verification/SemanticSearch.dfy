/** Nearest memories over their chunks: scan a bounded number of chunks in distance order, keep first sightings. */
module SemanticSearch {
  import opened Base
  import opened Rows
  import opened Sorting

  const CHUNK_OVERSAMPLE: nat := 4

  /** One eligible chunk and its distance from the query vector. */
  datatype Hit = Hit(item: ItemId, distance: real)

  function Nearer(): (Hit, Hit) -> bool {
    (a: Hit, b: Hit) => a.distance <= b.distance
  }

  ghost function ItemsOf(hits: seq<Hit>): set<ItemId> {
    set h | h in hits :: h.item
  }

  function Count(hits: seq<Hit>, item: ItemId): nat {
    if hits == [] then 0
    else Count(hits[..|hits| - 1], item) + if hits[|hits| - 1].item == item then 1 else 0
  }

  /** This hit is its memory's nearest chunk. */
  ghost predicate AtNearest(hits: seq<Hit>, b: Hit) {
    b in hits && forall h | h in hits && h.item == b.item :: b.distance <= h.distance
  }

  /** The exact answer: `k` different memories, each at its own nearest chunk, and nothing nearer left out. */
  ghost predicate IsNearest(hits: seq<Hit>, best: seq<Hit>) {
    && (forall i, j | 0 <= i < j < |best| :: best[i].item != best[j].item)
    && (forall b | b in best :: AtNearest(hits, b))
    && Sorted(best, Nearer())
    && (forall b, h | b in best && h in hits && h.item !in ItemsOf(best) :: b.distance <= h.distance)
  }

  // ---- the scan ----

  ghost function Sightings(hits: seq<Hit>): seq<Hit> {
    if hits == [] then []
    else
      var before := Sightings(hits[..|hits| - 1]);
      if hits[|hits| - 1].item in ItemsOf(before) then before else before + [hits[|hits| - 1]]
  }

  lemma LastIsFarthest(front: seq<Hit>, last: Hit)
    requires Sorted(front + [last], Nearer())
    ensures Sorted(front, Nearer()) && forall h | h in front :: h.distance <= last.distance
  {
    var hits := front + [last];
    assert forall i | 0 <= i < |front| :: hits[i] == front[i];
    forall h | h in front
      ensures h.distance <= last.distance
    {
      var i :| 0 <= i < |front| && front[i] == h;
      assert Nearer()(hits[i], hits[|front|]);
    }
  }

  lemma ItemsOneMore(hits: seq<Hit>, last: Hit)
    ensures ItemsOf(hits + [last]) == ItemsOf(hits) + {last.item}
  {
  }

  lemma SightingsOneMore(front: seq<Hit>, last: Hit)
    ensures var before := Sightings(front);
            Sightings(front + [last]) == if last.item in ItemsOf(before) then before else before + [last]
  {
    assert (front + [last])[..|front|] == front;
  }

  lemma {:induction false} SightingsAreNearest(hits: seq<Hit>)
    requires Sorted(hits, Nearer())
    ensures IsNearest(hits, Sightings(hits)) && ItemsOf(Sightings(hits)) == ItemsOf(hits)
  {
    if hits != [] {
      var front, last := hits[..|hits| - 1], hits[|hits| - 1];
      assert hits == front + [last];
      LastIsFarthest(front, last);
      SightingsAreNearest(front);
      SightingsOneMore(front, last);
      ItemsOneMore(front, last);
      var before := Sightings(front);
      if last.item in ItemsOf(before) {
        OneMoreHit(front, before, last);
      } else {
        OneMoreSighting(front, before, last);
      }
    }
  }

  lemma OneMoreHit(front: seq<Hit>, best: seq<Hit>, last: Hit)
    requires IsNearest(front, best) && (forall h | h in front :: h.distance <= last.distance)
    requires last.item in ItemsOf(best)
    ensures IsNearest(front + [last], best)
  {
    forall b | b in best
      ensures b in front + [last] && b.distance <= last.distance
    {
      assert b in front;
    }
  }

  lemma OneMoreSighting(front: seq<Hit>, best: seq<Hit>, last: Hit)
    requires IsNearest(front, best) && (forall h | h in front :: h.distance <= last.distance)
    requires last.item !in ItemsOf(best) && ItemsOf(best) == ItemsOf(front)
    ensures IsNearest(front + [last], best + [last])
    ensures ItemsOf(best + [last]) == ItemsOf(front + [last])
  {
    var hits, more := front + [last], best + [last];
    ItemsOneMore(best, last);
    ItemsOneMore(front, last);
    forall b | b in more
      ensures AtNearest(hits, b) && b.distance <= last.distance
    {
      StillNearest(front, b, last, ItemsOf(front));
    }
    forall i, j | 0 <= i < j < |more|
      ensures more[i].item != more[j].item && Nearer()(more[i], more[j])
    {
      assert more[i] == best[i] && best[i].item in ItemsOf(best);
      if j < |best| {
        assert Nearer()(best[i], best[j]);
      } else {
        assert more[i] in more;
      }
    }
    forall h | h in hits
      ensures h.item in ItemsOf(more)
    {
      assert h.item in ItemsOf(hits);
    }
  }

  lemma StillNearest(front: seq<Hit>, b: Hit, last: Hit, items: set<ItemId>)
    requires (forall h | h in front :: h.distance <= last.distance && h.item in items) && last.item !in items
    requires b == last || AtNearest(front, b)
    ensures AtNearest(front + [last], b) && b.distance <= last.distance
  {
    assert b in front ==> b.item in items;
    assert forall h | h in front + [last] :: h in front || h == last;
  }

  lemma {:induction false} SightingsGrow(hits: seq<Hit>, m: nat)
    requires m <= |hits|
    ensures Sightings(hits[..m]) <= Sightings(hits)
    decreases |hits|
  {
    if m < |hits| {
      SightingsGrow(hits[..|hits| - 1], m);
      assert hits[..|hits| - 1][..m] == hits[..m];
    } else {
      assert hits[..m] == hits;
    }
  }

  /** Cutting an exact answer short leaves an exact, shorter answer. */
  lemma PrefixIsNearest(hits: seq<Hit>, best: seq<Hit>, k: nat)
    requires IsNearest(hits, best) && k <= |best| && ItemsOf(best) == ItemsOf(hits)
    ensures IsNearest(hits, best[..k])
  {
    forall b, h | b in best[..k] && h in hits && h.item !in ItemsOf(best[..k])
      ensures b.distance <= h.distance
    {
      assert h.item in ItemsOf(best);
      var i :| 0 <= i < k && best[i] == b;
      var j :| 0 <= j < |best| && best[j].item == h.item;
      assert forall n | 0 <= n < k :: best[..k][n].item in ItemsOf(best[..k]);
      assert Nearer()(best[i], best[j]);
    }
  }

  // ---- how far the scan must look ----

  function Without(hits: seq<Hit>, item: ItemId): (r: seq<Hit>)
    ensures |r| == |hits| - Count(hits, item)
    ensures forall h :: h in r <==> h in hits && h.item != item
  {
    if hits == [] then []
    else
      var last := hits[|hits| - 1];
      assert hits == hits[..|hits| - 1] + [last];
      Without(hits[..|hits| - 1], item) + if last.item == item then [] else [last]
  }

  lemma {:induction false} WithoutKeepsCounts(hits: seq<Hit>, item: ItemId, other: ItemId)
    ensures Count(Without(hits, item), other) == if other == item then 0 else Count(hits, other)
  {
    if hits != [] {
      WithoutKeepsCounts(hits[..|hits| - 1], item, other);
      var before := Without(hits[..|hits| - 1], item);
      assert (before + [hits[|hits| - 1]])[..|before|] == before;
      assert before + [] == before;
    }
  }

  lemma {:induction false} Pigeonhole(hits: seq<Hit>)
    requires forall item :: Count(hits, item) <= CHUNK_OVERSAMPLE
    ensures |hits| <= CHUNK_OVERSAMPLE * |ItemsOf(hits)|
    decreases |hits|
  {
    if hits != [] {
      var item := hits[|hits| - 1].item;
      var rest := Without(hits, item);
      forall other
        ensures Count(rest, other) <= CHUNK_OVERSAMPLE
      {
        WithoutKeepsCounts(hits, item, other);
      }
      assert item in ItemsOf(hits);
      assert ItemsOf(rest) == ItemsOf(hits) - {item};
      Pigeonhole(rest);
    }
  }

  lemma {:induction false} CountOfPrefix(hits: seq<Hit>, m: nat, item: ItemId)
    requires m <= |hits|
    ensures Count(hits[..m], item) <= Count(hits, item)
    decreases |hits|
  {
    if m < |hits| {
      CountOfPrefix(hits[..|hits| - 1], m, item);
      assert hits[..|hits| - 1][..m] == hits[..m];
    } else {
      assert hits[..m] == hits;
    }
  }

  lemma {:induction false} SightingsCountItems(hits: seq<Hit>)
    ensures ItemsOf(Sightings(hits)) == ItemsOf(hits) && |Sightings(hits)| == |ItemsOf(hits)|
  {
    if hits != [] {
      var front, last := hits[..|hits| - 1], hits[|hits| - 1];
      SightingsCountItems(front);
      assert hits == front + [last];
      assert ItemsOf(hits) == ItemsOf(front) + {last.item};
      assert ItemsOf(Sightings(front) + [last]) == ItemsOf(Sightings(front)) + {last.item};
    }
  }

  /** With few enough chunks a memory, the bounded scan always sees enough memories. */
  lemma OversampleSuffices(hits: seq<Hit>, limit: nat)
    requires forall item :: Count(hits, item) <= CHUNK_OVERSAMPLE
    ensures var scanned := Take(hits, limit * CHUNK_OVERSAMPLE);
            Min(limit, |ItemsOf(scanned)|) == Min(limit, |ItemsOf(hits)|)
  {
    var scanned := Take(hits, limit * CHUNK_OVERSAMPLE);
    SubsetCardinality(ItemsOf(scanned), ItemsOf(hits));
    if limit * CHUNK_OVERSAMPLE < |hits| {
      forall item
        ensures Count(scanned, item) <= CHUNK_OVERSAMPLE
      {
        if limit > 0 {
          CountOfPrefix(hits, |scanned|, item);
        }
      }
      Pigeonhole(scanned);
    }
  }

  // ---- the search ----

  /** What the loop holds when it stops is a cut of the exact answer. */
  lemma FoundIsPrefix(hits: seq<Hit>, scanned: seq<Hit>, limit: nat, i: nat, best: seq<Hit>)
    requires Sorted(hits, Nearer()) && scanned <= hits && i <= |scanned|
    requires best == Sightings(scanned[..i]) && |best| <= limit
    requires i == |scanned| || |best| == limit
    ensures IsNearest(hits, best) && |best| == Min(limit, |ItemsOf(scanned)|)
  {
    assert scanned[..i] == hits[..i];
    SightingsGrow(hits, i);
    SightingsAreNearest(hits);
    PrefixIsNearest(hits, Sightings(hits), |best|);
    assert best == Sightings(hits)[..|best|];
    SightingsGrow(scanned, i);
    SightingsCountItems(scanned);
    if i == |scanned| {
      assert scanned[..i] == scanned;
    }
  }

  lemma FoundIsAnswer(hits: seq<Hit>, limit: nat, i: nat, best: seq<Hit>)
    requires Sorted(hits, Nearer())
    requires var scanned := Take(hits, limit * CHUNK_OVERSAMPLE);
             && i <= |scanned| && best == Sightings(scanned[..i]) && |best| <= limit
             && (i == |scanned| || |best| == limit)
    ensures var nearest := SortBy(best, Nearer());
            && IsNearest(hits, nearest)
            && |nearest| == Min(limit, |ItemsOf(Take(hits, limit * CHUNK_OVERSAMPLE))|)
            && ((forall item :: Count(hits, item) <= CHUNK_OVERSAMPLE) ==> |nearest| == Min(limit, |ItemsOf(hits)|))
  {
    FoundIsPrefix(hits, Take(hits, limit * CHUNK_OVERSAMPLE), limit, i, best);
    SortOfSorted(best, Nearer());
    if forall item :: Count(hits, item) <= CHUNK_OVERSAMPLE {
      OversampleSuffices(hits, limit);
    }
  }

  /**
   `search_semantic` over every eligible chunk in distance order.  The answer is always exact for as
   many memories as it names; it names `min(limit, memories)` of them exactly when the scan saw that
   many, which few enough chunks a memory guarantees.
   */
  method SearchSemantic(hits: seq<Hit>, limit: nat) returns (nearest: seq<Hit>)
    requires Sorted(hits, Nearer())
    ensures IsNearest(hits, nearest)
    ensures |nearest| == Min(limit, |ItemsOf(Take(hits, limit * 4))|)
    ensures (forall item :: Count(hits, item) <= 4) ==> |nearest| == Min(limit, |ItemsOf(hits)|)
  {
    var scanned := Take(hits, limit * CHUNK_OVERSAMPLE);
    var seen: set<ItemId> := {};
    var best: seq<Hit> := [];
    var i := 0;
    while i < |scanned|
      invariant 0 <= i <= |scanned|
      invariant best == Sightings(scanned[..i]) && seen == ItemsOf(best)
      invariant |best| < limit || (i == 0 && limit == 0)
    {
      assert scanned[..i + 1] == scanned[..i] + [scanned[i]];
      SightingsOneMore(scanned[..i], scanned[i]);
      ItemsOneMore(best, scanned[i]);
      if scanned[i].item !in seen {
        best, seen := best + [scanned[i]], seen + {scanned[i].item};
      }
      i := i + 1;
      if |best| >= limit {
        break;
      }
    }
    FoundIsAnswer(hits, limit, i, best);
    nearest := SortBy(best, Nearer());
  }
}
