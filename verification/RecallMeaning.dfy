/** Derivation in the terms it starts from: distances, shared tags, and the entries of the judge's answer. */
module RecallMeaning {
  import opened Base
  import opened Rows
  import opened Edges
  import opened Sorting
  import opened SemanticSearch
  import opened Derivation
  import EdgeWrites

  // ---- recall ----

  /** Cosine similarity, kept between 0 and 1. */
  predicate IsSimilarity(distance: real, score: real) {
    if distance < 0.0 then score == 1.0 else if distance > 1.0 then score == 0.0 else score == 1.0 - distance
  }

  /** Recalled by its vector: a neighbour no farther than 0.70. */
  predicate ByVector(input: RecallInput, c: Candidate) {
    c.score.Some? && exists h | h in input.near ::
      h.item == c.item && h.distance <= 0.70 && IsSimilarity(h.distance, c.score.value)
  }

  /** Recalled by a shared tag alone: no neighbour, or too far a one. */
  predicate ByTag(input: RecallInput, c: Candidate) {
    c.score.None? && c.item in input.tagged && forall h | h in input.near && h.item == c.item :: h.distance > 0.70
  }

  predicate IsCandidate(input: RecallInput, c: Candidate) {
    ByVector(input, c) || ByTag(input, c)
  }

  function Shares(input: RecallInput, item: ItemId): nat {
    if item in input.shared then input.shared[item] else 0
  }

  /** `a` stands before `b`: it shares more tags, or as many and is strictly nearer. */
  predicate Outranks(input: RecallInput, a: Candidate, b: Candidate) {
    || Shares(input, a.item) > Shares(input, b.item)
    || (Shares(input, a.item) == Shares(input, b.item) && Nearer(input, a.item, b.item))
  }

  predicate Nearer(input: RecallInput, a: ItemId, b: ItemId) {
    exists h | h in input.near :: h.item == a && h.distance <= 0.70 &&
      forall k | k in input.near && k.item == b && k.distance <= 0.70 :: h.distance < k.distance && k.distance > 0.0
  }

  ghost predicate DistinctNear(near: seq<Hit>) {
    forall i, j | 0 <= i < j < |near| :: near[i].item != near[j].item
  }

  lemma SimilarityIsScore(distance: real)
    ensures IsSimilarity(distance, ScoreOf(distance))
    ensures ScoreOf(distance) >= CONNECTION_RECALL_FLOOR <==> distance <= 0.70
  {
  }

  lemma {:induction false} NearIsByVector(near: seq<Hit>, c: Candidate)
    ensures c in Near(near) <==>
            c.score.Some? && exists h | h in near ::
              h.item == c.item && h.distance <= 0.70 && IsSimilarity(h.distance, c.score.value)
  {
    if near != [] {
      var front, last := near[..|near| - 1], near[|near| - 1];
      assert near == front + [last];
      NearIsByVector(front, c);
      SimilarityIsScore(last.distance);
    }
  }

  lemma {:induction false} TaggedIs(found: seq<Candidate>, tagged: seq<ItemId>, c: Candidate)
    ensures c in WithTagged(found, tagged) <==>
            c in found || (c.score.None? && c.item in tagged && !Has(found, c.item))
    ensures Has(WithTagged(found, tagged), c.item) <==> Has(found, c.item) || c.item in tagged
  {
    if tagged != [] {
      var front, last := tagged[..|tagged| - 1], tagged[|tagged| - 1];
      assert tagged == front + [last];
      TaggedIs(found, front, c);
      TaggedIs(found, front, Candidate(last, None));
      var before := WithTagged(found, front);
      assert Has(before + [Candidate(last, None)], c.item) <==> Has(before, c.item) || c.item == last by {
        assert Candidate(last, None) in before + [Candidate(last, None)];
      }
    }
  }

  lemma HasNear(near: seq<Hit>, item: ItemId)
    ensures Has(Near(near), item) <==> exists h | h in near :: h.item == item && h.distance <= 0.70
  {
    if c :| c in Near(near) && c.item == item {
      NearIsByVector(near, c);
    }
    if h :| h in near && h.item == item && h.distance <= 0.70 {
      SimilarityIsScore(h.distance);
      NearIsByVector(near, Candidate(item, Some(ScoreOf(h.distance))));
    }
  }

  lemma CandidatesAre(input: RecallInput, c: Candidate)
    ensures c in WithTagged(Near(input.near), input.tagged) <==> IsCandidate(input, c)
  {
    TaggedIs(Near(input.near), input.tagged, c);
    NearIsByVector(input.near, c);
    HasNear(input.near, c.item);
  }

  lemma SameHit(near: seq<Hit>, h: Hit, k: Hit)
    requires DistinctNear(near) && h in near && k in near && h.item == k.item
    ensures h == k
  {
    var i :| 0 <= i < |near| && near[i] == h;
    var j :| 0 <= j < |near| && near[j] == k;
  }

  lemma NearerIsHigher(input: RecallInput, a: Candidate, b: Candidate)
    requires DistinctNear(input.near) && IsCandidate(input, a) && IsCandidate(input, b)
    ensures Nearer(input, a.item, b.item) <==> a.score.GetOr(0.0) > b.score.GetOr(0.0)
  {
    if ByVector(input, a) {
      var h :| h in input.near && h.item == a.item && h.distance <= 0.70 && IsSimilarity(h.distance, a.score.value);
      forall k | k in input.near && k.item == a.item
        ensures k == h
      {
        SameHit(input.near, k, h);
      }
      if ByVector(input, b) {
        var k :| k in input.near && k.item == b.item && k.distance <= 0.70 && IsSimilarity(k.distance, b.score.value);
        forall l | l in input.near && l.item == b.item
          ensures l == k
        {
          SameHit(input.near, l, k);
        }
      }
    }
  }

  lemma OutranksIffFirst(input: RecallInput, a: Candidate, b: Candidate)
    requires DistinctNear(input.near) && IsCandidate(input, a) && IsCandidate(input, b)
    ensures Outranks(input, a, b) <==> !RanksBefore(input)(b, a)
  {
    NearerIsHigher(input, a, b);
  }

  /** How many candidates a derivation with this much room looks at. */
  function Seats(room: int): nat {
    if room <= 0 then 0 else if room < 8 then room else 8
  }

  /**
   Recall in distances and tags: what it hands on are candidates, each memory once, in rank order;
   it hands on all of them, or fills every seat and leaves nothing behind that outranks one it keeps.
   */
  lemma RecallIsExact(input: RecallInput, room: int)
    requires DistinctNear(input.near)
    ensures var found := Recalled(input, room);
            && |found| <= Seats(room) && DistinctItems(found)
            && (forall c | c in found :: IsCandidate(input, c))
            && (forall i, j | 0 <= i < j < |found| :: !Outranks(input, found[j], found[i]))
            && (forall c | IsCandidate(input, c) && c !in found ::
                  |found| == Seats(room) && forall kept | kept in found :: !Outranks(input, c, kept))
  {
    var all, found := WithTagged(Near(input.near), input.tagged), Recalled(input, room);
    NearItems(input.near);
    TaggedItems(Near(input.near), input.tagged);
    SortKeepsDistinct(all, RanksBefore(input));
    RecallKeepsTheBest(input, room);
    forall c
      ensures c in all <==> IsCandidate(input, c)
    {
      CandidatesAre(input, c);
    }
    forall i, j | 0 <= i < j < |found|
      ensures !Outranks(input, found[j], found[i])
    {
      assert found[i] in found && found[j] in found;
      OutranksIffFirst(input, found[j], found[i]);
    }
    forall c | IsCandidate(input, c) && c !in found
      ensures |found| == Seats(room) && forall kept | kept in found :: !Outranks(input, c, kept)
    {
      assert c in SortBy(all, RanksBefore(input));
      forall kept | kept in found
        ensures !Outranks(input, c, kept)
      {
        OutranksIffFirst(input, c, kept);
      }
    }
  }

  lemma {:induction false} NearCount(near: seq<Hit>)
    ensures |Near(near)| <= |near|
  {
    if near != [] {
      NearCount(near[..|near| - 1]);
    }
  }

  lemma {:induction false} CandidateCount(near: seq<Hit>, tagged: seq<ItemId>)
    ensures |WithTagged(Near(near), tagged)| <= |near| + |tagged|
  {
    if tagged == [] {
      NearCount(near);
    } else {
      CandidateCount(near, tagged[..|tagged| - 1]);
    }
  }

  lemma VectorCandidateIff(input: RecallInput, h: Hit, score: real)
    requires DistinctNear(input.near) && h in input.near && 0.0 <= h.distance <= 1.0
    ensures IsCandidate(input, Candidate(h.item, Some(score))) <==> h.distance <= 0.70 && score == 1.0 - h.distance
  {
    forall k | k in input.near && k.item == h.item
      ensures k == h
    {
      SameHit(input.near, k, h);
    }
  }

  lemma SeatsForAll(input: RecallInput, room: int)
    requires |input.near| + |input.tagged| <= Seats(room)
    ensures forall c :: c in Recalled(input, room) <==> IsCandidate(input, c)
  {
    CandidateCount(input.near, input.tagged);
    assert Recalled(input, room) == SortBy(WithTagged(Near(input.near), input.tagged), RanksBefore(input));
    forall c
      ensures c in Recalled(input, room) <==> IsCandidate(input, c)
    {
      CandidatesAre(input, c);
    }
  }

  /** With a seat for everyone, a neighbour is recalled by its vector exactly when it is within 0.70, scored 1 - d. */
  lemma RecalledByVectorIff(input: RecallInput, room: int, h: Hit, score: real)
    requires DistinctNear(input.near) && h in input.near && 0.0 <= h.distance <= 1.0
    requires |input.near| + |input.tagged| <= Seats(room)
    ensures Candidate(h.item, Some(score)) in Recalled(input, room) <==> h.distance <= 0.70 && score == 1.0 - h.distance
  {
    SeatsForAll(input, room);
    VectorCandidateIff(input, h, score);
  }

  // ---- the decision ----

  /** The keys are `c1`, `c2` and so on, in recall order. */
  lemma KeysAreNumbered()
    ensures KeyOf(0) == "c1" && KeyOf(1) == "c2" && KeyOf(7) == "c8" && KeyOf(9) == "c10"
    ensures forall i: nat, j: nat | KeyOf(i) == KeyOf(j) :: i == j
  {
    assert Decimal(10) == Decimal(1) + ['0'] == "10";
    forall i: nat, j: nat | KeyOf(i) == KeyOf(j)
      ensures i == j
    {
      KeyInjective(i, j);
    }
  }

  /** The judge says yes, and is at least 0.55 sure of it. */
  predicate SaysYes(e: Entry) {
    e.Entry? && e.keep && e.confidence.Some? && e.confidence.value >= 0.55
  }

  /** The proposal is the recalled memory the entry's key was sent for, in the entry's own words. */
  ghost predicate Proposes(found: seq<Candidate>, e: Entry, p: Proposal)
    requires e.Entry?
  {
    && (exists i: nat ::
          i < |found| && Strip(e.key) == KeyOf(i) && p.target == found[i].item && p.score == found[i].score)
    && p.relation == (if e.relation.Some? then e.relation.value else RelatedTo)
    && p.swap == e.bToA && p.aiReason == (if e.reason == "" then None else Some(e.reason))
  }

  /** The entry is the first to use the key of a recalled memory. */
  ghost predicate Opens(found: seq<Candidate>, entries: seq<Entry>, i: nat) {
    && i < |entries| && entries[i].Entry? && (exists k: nat :: k < |found| && Strip(entries[i].key) == KeyOf(k))
    && forall j | 0 <= j < i && entries[j].Entry? :: Strip(entries[j].key) != Strip(entries[i].key)
  }

  ghost predicate YesFrom(ps: seq<Proposal>, found: seq<Candidate>, entries: seq<Entry>, places: seq<nat>) {
    && |places| == |ps| <= 5 && Increasing(places)
    && (forall n | 0 <= n < |ps| :: Opens(found, entries, places[n]) && SaysYes(entries[places[n]])
                                    && Proposes(found, entries[places[n]], ps[n]))
    && (forall i: nat | Opens(found, entries, i) && SaysYes(entries[i]) ::
          i in places || (|ps| == 5 && forall n | 0 <= n < |ps| :: places[n] < i))
  }

  lemma OpensIsFirstUse(found: seq<Candidate>, entries: seq<Entry>, i: nat)
    ensures Opens(found, entries, i) <==> FirstUse(entries, SentKeys(found), i)
  {
  }

  lemma YesIsKept(found: seq<Candidate>, entries: seq<Entry>, i: nat)
    ensures Opens(found, entries, i) && SaysYes(entries[i]) <==> KeptFirstUse(found, entries, i)
  {
    OpensIsFirstUse(found, entries, i);
  }

  lemma ProposalSaysEntry(found: seq<Candidate>, e: Entry)
    requires e.Entry? && Strip(e.key) in SentKeys(found)
    ensures Proposes(found, e, ProposalFor(found, ReadEntry(e)))
  {
    var i :| 0 <= i < |found| && KeyOf(i) == Strip(e.key) && found[i] == CandidateFor(found, Strip(e.key));
  }

  /**
   Once the judge used any sent key, what is proposed are its first yeses in the order of the answer,
   at most five, each naming the memory its key was sent for with the entry's relation, direction and
   reason.
   */
  lemma DecisionIsExact(found: seq<Candidate>, entries: seq<Entry>)
    requires exists i: nat :: Opens(found, entries, i)
    ensures exists places :: YesFrom(Decided(found, Answered(entries)), found, entries, places)
  {
    var first: nat :| Opens(found, entries, first);
    OpensIsFirstUse(found, entries, first);
    var read := ReadFromAnswer(entries, SentKeys(found));
    assert first in read;
    var places := DecidedPlaces(found, entries);
    var ps := Decided(found, Answered(entries));
    forall n | 0 <= n < |ps|
      ensures Opens(found, entries, places[n]) && SaysYes(entries[places[n]])
      ensures Proposes(found, entries[places[n]], ps[n])
    {
      YesIsKept(found, entries, places[n]);
      ProposalSaysEntry(found, entries[places[n]]);
    }
    forall i: nat | Opens(found, entries, i) && SaysYes(entries[i])
      ensures i in places || (|ps| == 5 && forall n | 0 <= n < |ps| :: places[n] < i)
    {
      YesIsKept(found, entries, i);
    }
    assert YesFrom(ps, found, entries, places);
  }

  // ---- the floor ----

  /** Clear of the floor on its score alone. */
  predicate Clears(c: Candidate) {
    c.score.Some? && c.score.value >= 0.62
  }

  ghost predicate FloorFrom(ps: seq<Proposal>, found: seq<Candidate>, places: seq<nat>) {
    && |places| == |ps| && Increasing(places)
    && (forall n | 0 <= n < |ps| :: places[n] < |found| && Clears(found[places[n]])
          && ps[n] == Proposal(found[places[n]].item, found[places[n]].score, RelatedTo, None, false))
    && (forall i: nat | i < |found| && Clears(found[i]) :: i in places)
  }

  lemma OneMoreFloor(ps: seq<Proposal>, front: seq<Candidate>, last: Candidate, earlier: seq<nat>)
    requires FloorFrom(ps, front, earlier)
    ensures if Clears(last)
            then FloorFrom(ps + [Proposal(last.item, last.score, RelatedTo, None, false)], front + [last],
                           earlier + [|front|])
            else FloorFrom(ps, front + [last], earlier)
  {
    var found, places := front + [last], earlier + [|front|];
    assert forall i | 0 <= i < |front| :: found[i] == front[i];
    assert forall i | i in earlier :: i in places;
    assert places[|earlier|] == |front| && found[|front|] == last;
  }

  lemma {:induction false} FloorPlaces(found: seq<Candidate>) returns (places: seq<nat>)
    ensures FloorFrom(AboveFloor(found), found, places)
  {
    if found == [] {
      places := [];
    } else {
      var front, last := found[..|found| - 1], found[|found| - 1];
      assert found == front + [last];
      places := FloorPlaces(front);
      OneMoreFloor(AboveFloor(front), front, last, places);
      if Clears(last) {
        places := places + [|front|];
      }
    }
  }

  ghost predicate AnswersNothing(found: seq<Candidate>, answer: JudgeAnswer) {
    answer.Answered? ==> forall i: nat :: !Opens(found, answer.entries, i)
  }

  /**
   When nothing was judged, the first five recalled memories scored 0.62 or more are proposed, in
   recall order, as bare relations drawn from the derived memory.
   */
  lemma FloorIsExact(found: seq<Candidate>, answer: JudgeAnswer)
    requires AnswersNothing(found, answer)
    ensures exists ps, places :: FloorFrom(ps, found, places) && Decided(found, answer) == Take(ps, 5)
  {
    var places := FloorPlaces(found);
    if answer.Answered? {
      var read := ReadFromAnswer(answer.entries, SentKeys(found));
      NothingOpened(found, answer.entries, read);
    }
    assert FloorFrom(AboveFloor(found), found, places) && Decided(found, answer) == Take(AboveFloor(found), 5);
  }

  lemma NothingOpened(found: seq<Candidate>, entries: seq<Entry>, read: seq<nat>)
    requires ReadFrom(Validated(entries, SentKeys(found)), entries, SentKeys(found), read)
    requires forall i: nat :: !Opens(found, entries, i)
    ensures Validated(entries, SentKeys(found)) == []
  {
    if |read| > 0 {
      OpensIsFirstUse(found, entries, read[0]);
    }
  }

  // ---- what derive stores ----

  ghost predicate StoredFrom(e: Edge, owner: UserId, id: ItemId, input: RecallInput, p: Proposal, now: Time) {
    && EdgeWrites.ProposedAs(e, owner, id, p, now) && p.target != id
    && IsCandidate(input, Candidate(p.target, p.score))
  }

  /**
   Every row a derivation writes is one of its decided proposals, running the way it was judged, and
   its score is the similarity of a neighbour within 0.70, or none for a memory recalled by a tag.
   */
  lemma DerivedRowsMean(g: Graph, items: Items, id: ItemId, input: RecallInput, answer: JudgeAnswer, now: Time)
    requires Valid(g) && Live(items, id) && Recallable(items, id, input)
    ensures var t, owner := Derived(g, items, id, input, answer, now), items[id].owner;
            forall e | e in t.edges && e !in g.edges ::
              exists p | p in Decided(RecalledFor(g, items, id, input), answer) ::
                StoredFrom(t.edges[e], owner, id, input, p, now)
  {
    var t, owner, found := Derived(g, items, id, input, answer, now), items[id].owner, RecalledFor(g, items, id, input);
    var ps := Decided(found, answer);
    EdgeWrites.SuggestWrites(g, owner, id, ps, now);
    RecallIsExact(input, CONNECTION_MAX_PER_ITEM - |EdgesOf(g.edges, owner, id)|);
    DecidedDrawnFrom(found, answer);
    forall e | e in t.edges && e !in g.edges
      ensures exists p | p in ps :: StoredFrom(t.edges[e], owner, id, input, p, now)
    {
      assert EdgeWrites.FromBatch(t.edges[e], owner, id, ps, now);
      var p :| p in ps && p.target != id && EdgeWrites.ProposedAs(t.edges[e], owner, id, p, now);
      assert Candidate(p.target, p.score) in found;
    }
  }

  /**
   A derivation happens exactly for a live memory with a vector and fewer than 24 edges, over what
   fits in the room that is left; each decided memory then has an edge with the derived one.
   */
  lemma DeriveRunsIff(g: Graph, items: Items, id: ItemId, input: RecallInput, answer: JudgeAnswer, now: Time)
    requires Valid(g)
    ensures var t := Derived(g, items, id, input, answer, now);
            if Live(items, id) && input.hasVector && |EdgesOf(g.edges, items[id].owner, id)| < 24 then
              var room := 24 - |EdgesOf(g.edges, items[id].owner, id)|;
              forall p | p in Decided(Recalled(input, room), answer) && p.target != id ::
                PairTaken(t.edges, items[id].owner, id, p.target)
            else t == g
  {
    if Live(items, id) {
      EdgeWrites.SuggestWrites(g, items[id].owner, id, Decided(RecalledFor(g, items, id, input), answer), now);
    }
  }
}
