/** Proposing connections for a finished memory: recall, a judge whose answer is arbitrary, and what may be written. */
module Derivation {
  import opened Base
  import opened Rows
  import opened Edges
  import opened Sorting
  import opened SemanticSearch
  import EdgeHistory

  const CONNECTION_MIN_SCORE := 0.62
  const CONNECTION_RECALL_FLOOR := 0.30
  const CONNECTION_JUDGE_MIN_CONFIDENCE := 0.55
  const CONNECTION_MAX_CANDIDATES: nat := 5
  const CONNECTION_MAX_PER_ITEM: nat := 24
  const CONNECTION_JUDGE_MAX_CANDIDATES: nat := 8
  const JUDGE_MAX_CANDIDATES: nat := 12

  datatype Candidate = Candidate(item: ItemId, score: Option<real>)

  /** One entry of the model's answer, as far as it could be read. */
  datatype Entry =
    | NotAnObject
    | Entry(key: string, keep: bool, relation: Option<Relation>, bToA: bool, reason: string, confidence: Option<real>)

  datatype JudgeAnswer = JudgeOff | JudgeFailed | Answered(entries: seq<Entry>)

  datatype Judgement = Judgement(
    key: string, keep: bool, relation: Relation, swap: bool, reason: string, confidence: real)

  /** What recall is handed: the vector half's neighbours, the tag half's memories, and how many tags each shares. */
  datatype RecallInput = RecallInput(hasVector: bool, near: seq<Hit>, tagged: seq<ItemId>, shared: map<ItemId, nat>)

  // ---- judgement ----

  function ReadConfidence(value: Option<real>): real {
    match value
    case None => 0.0
    case Some(x) => if x < 0.0 then 0.0 else if x > 1.0 then 1.0 else x
  }

  function ReadEntry(e: Entry): Judgement
    requires e.Entry?
  {
    Judgement(Strip(e.key), e.keep, e.relation.GetOr(RelatedTo), e.bToA, e.reason, ReadConfidence(e.confidence))
  }

  ghost function KeysOf(js: seq<Judgement>): set<string> {
    set j | j in js :: j.key
  }

  /** `_validate` read as a filter: an entry counts when its key was sent and no earlier entry used it. */
  ghost function Validated(entries: seq<Entry>, allowed: set<string>): seq<Judgement> {
    if entries == [] then []
    else
      var before := Validated(entries[..|entries| - 1], allowed);
      var last := entries[|entries| - 1];
      if last.Entry? && Strip(last.key) in allowed && Strip(last.key) !in KeysOf(before)
      then before + [ReadEntry(last)] else before
  }

  /** Whatever the model said: sent keys only, none twice, none missed, confidence between 0 and 1. */
  lemma {:induction false} ValidatedKeys(entries: seq<Entry>, allowed: set<string>)
    ensures var js := Validated(entries, allowed);
            && KeysOf(js) <= allowed
            && (forall i, j | 0 <= i < j < |js| :: js[i].key != js[j].key)
            && (forall e | e in entries && e.Entry? && Strip(e.key) in allowed :: Strip(e.key) in KeysOf(js))
            && (forall j | j in js :: 0.0 <= j.confidence <= 1.0)
  {
    if entries != [] {
      ValidatedKeys(entries[..|entries| - 1], allowed);
      var before := Validated(entries[..|entries| - 1], allowed);
      var js := Validated(entries, allowed);
      assert entries == entries[..|entries| - 1] + [entries[|entries| - 1]];
      assert forall j | j in before :: j.key in KeysOf(before) && j in js;
      if js != before {
        assert js[|before|] in js;
      }
    }
  }

  /** Entry `i` uses a sent key that no earlier entry used. */
  predicate FirstUse(entries: seq<Entry>, allowed: set<string>, i: nat) {
    && i < |entries| && entries[i].Entry? && Strip(entries[i].key) in allowed
    && forall k | 0 <= k < i && entries[k].Entry? :: Strip(entries[k].key) != Strip(entries[i].key)
  }

  /** The judgements are the first uses, all of them, in the order of the answer. */
  ghost predicate ReadFrom(js: seq<Judgement>, entries: seq<Entry>, allowed: set<string>, places: seq<nat>) {
    && |places| == |js| && Increasing(places)
    && (forall n | 0 <= n < |js| :: FirstUse(entries, allowed, places[n]) && js[n] == ReadEntry(entries[places[n]]))
    && (forall i: nat | FirstUse(entries, allowed, i) :: i in places)
  }

  lemma FirstUseInPrefix(front: seq<Entry>, last: Entry, allowed: set<string>, i: nat)
    ensures i < |front| ==> (FirstUse(front + [last], allowed, i) <==> FirstUse(front, allowed, i))
    ensures FirstUse(front + [last], allowed, |front|) <==>
            last.Entry? && Strip(last.key) in allowed
            && forall e | e in front && e.Entry? :: Strip(e.key) != Strip(last.key)
  {
    var entries := front + [last];
    assert forall k | 0 <= k < |front| :: entries[k] == front[k];
    assert entries[|front|] == last;
  }

  /** The filter takes the last entry exactly when it is a first use. */
  lemma TakesFirstUses(front: seq<Entry>, last: Entry, allowed: set<string>, earlier: seq<nat>)
    requires ReadFrom(Validated(front, allowed), front, allowed, earlier)
    ensures last.Entry? && Strip(last.key) in allowed && Strip(last.key) !in KeysOf(Validated(front, allowed)) <==>
            FirstUse(front + [last], allowed, |front|)
  {
    FirstUseInPrefix(front, last, allowed, 0);
    ValidatedKeys(front, allowed);
    if last.Entry? && Strip(last.key) in KeysOf(Validated(front, allowed)) {
      var js := Validated(front, allowed);
      var n :| 0 <= n < |js| && js[n].key == Strip(last.key);
      assert FirstUse(front, allowed, earlier[n]);
      assert front[earlier[n]] in front;
    }
  }

  lemma OneMoreFirstUse(js: seq<Judgement>, front: seq<Entry>, last: Entry, allowed: set<string>, earlier: seq<nat>)
    requires ReadFrom(js, front, allowed, earlier)
    ensures FirstUse(front + [last], allowed, |front|) ==>
              last.Entry? && ReadFrom(js + [ReadEntry(last)], front + [last], allowed, earlier + [|front|])
    ensures !FirstUse(front + [last], allowed, |front|) ==> ReadFrom(js, front + [last], allowed, earlier)
  {
    var entries := front + [last];
    forall i: nat
      ensures i < |front| ==> (FirstUse(entries, allowed, i) <==> FirstUse(front, allowed, i))
    {
      FirstUseInPrefix(front, last, allowed, i);
    }
    forall n | 0 <= n < |js|
      ensures FirstUse(entries, allowed, earlier[n]) && js[n] == ReadEntry(entries[earlier[n]])
    {
      assert FirstUse(front, allowed, earlier[n]);
    }
    forall i: nat | FirstUse(entries, allowed, i) && i != |front|
      ensures i in earlier
    {
      assert FirstUse(front, allowed, i);
    }
    var places := earlier + [|front|];
    assert forall i | i in earlier :: i in places;
    assert places[|earlier|] == |front|;
  }

  lemma {:induction false} ReadFromAnswer(entries: seq<Entry>, allowed: set<string>) returns (places: seq<nat>)
    ensures ReadFrom(Validated(entries, allowed), entries, allowed, places)
  {
    if entries == [] {
      places := [];
    } else {
      var front, last := entries[..|entries| - 1], entries[|entries| - 1];
      assert entries == front + [last];
      places := ReadFromAnswer(front, allowed);
      TakesFirstUses(front, last, allowed, places);
      OneMoreFirstUse(Validated(front, allowed), front, last, allowed, places);
      if FirstUse(entries, allowed, |front|) {
        places := places + [|front|];
      }
    }
  }

  /**
   Whatever the model said, each judgement is the first entry that used its key, no first use is
   missed, and the judgements stand in the order of the answer, not in the order of what was sent.
   */
  lemma ValidatedIsFirstPerKey(entries: seq<Entry>, allowed: set<string>)
    ensures exists places :: ReadFrom(Validated(entries, allowed), entries, allowed, places)
  {
    var places := ReadFromAnswer(entries, allowed);
  }

  method Validate(entries: seq<Entry>, allowed: set<string>) returns (out: seq<Judgement>)
    ensures out == Validated(entries, allowed)
    ensures exists places :: ReadFrom(out, entries, allowed, places)
  {
    out := [];
    var seen: set<string> := {};
    for i := 0 to |entries|
      invariant out == Validated(entries[..i], allowed) && seen == KeysOf(out)
    {
      assert entries[..i + 1][..i] == entries[..i];
      if entries[i].NotAnObject? {
        continue;
      }
      var key := Strip(entries[i].key);
      if key !in allowed || key in seen {
        continue;
      }
      seen := seen + {key};
      out := out + [ReadEntry(entries[i])];
    }
    assert entries[..|entries|] == entries;
    ValidatedIsFirstPerKey(entries, allowed);
  }

  // ---- the keys candidates are sent under ----

  function Decimal(n: nat): (r: string)
    ensures |r| >= 1 && (n >= 10 ==> |r| >= 2)
  {
    if n < 10 then [('0' as int + n) as char] else Decimal(n / 10) + [('0' as int + n % 10) as char]
  }

  function KeyOf(index: nat): string {
    "c" + Decimal(index + 1)
  }

  lemma {:induction false} DecimalInjective(m: nat, n: nat)
    requires Decimal(m) == Decimal(n)
    ensures m == n
  {
    if m >= 10 && n >= 10 {
      assert Decimal(m)[..|Decimal(m)| - 1] == Decimal(m / 10);
      assert Decimal(n)[..|Decimal(n)| - 1] == Decimal(n / 10);
      DecimalInjective(m / 10, n / 10);
      assert Decimal(m)[|Decimal(m)| - 1] == Decimal(n)[|Decimal(n)| - 1];
    }
  }

  lemma KeyInjective(i: nat, j: nat)
    requires KeyOf(i) == KeyOf(j)
    ensures i == j
  {
    assert KeyOf(i)[1..] == Decimal(i + 1) && KeyOf(j)[1..] == Decimal(j + 1);
    DecimalInjective(i + 1, j + 1);
  }

  // ---- recall ----

  predicate Has(found: seq<Candidate>, item: ItemId) {
    exists c | c in found :: c.item == item
  }

  function ScoreOf(distance: real): real {
    var s := 1.0 - distance;
    if s > 1.0 then 1.0 else if s < 0.0 then 0.0 else s
  }

  function SharedTags(input: RecallInput, item: ItemId): nat {
    if item in input.shared then input.shared[item] else 0
  }

  /** Ranked by shared tags, then by score, best first. */
  function RanksBefore(input: RecallInput): (Candidate, Candidate) -> bool {
    (a: Candidate, b: Candidate) =>
      || SharedTags(input, a.item) > SharedTags(input, b.item)
      || (SharedTags(input, a.item) == SharedTags(input, b.item) && a.score.GetOr(0.0) >= b.score.GetOr(0.0))
  }

  ghost function Near(near: seq<Hit>): seq<Candidate> {
    if near == [] then []
    else
      var before, last := Near(near[..|near| - 1]), near[|near| - 1];
      if ScoreOf(last.distance) >= CONNECTION_RECALL_FLOOR
      then before + [Candidate(last.item, Some(ScoreOf(last.distance)))] else before
  }

  ghost function WithTagged(found: seq<Candidate>, tagged: seq<ItemId>): seq<Candidate> {
    if tagged == [] then found
    else
      var before, last := WithTagged(found, tagged[..|tagged| - 1]), tagged[|tagged| - 1];
      if Has(before, last) then before else before + [Candidate(last, None)]
  }

  ghost function Recalled(input: RecallInput, room: int): seq<Candidate> {
    Take(SortBy(WithTagged(Near(input.near), input.tagged), RanksBefore(input)),
         Min(Min(CONNECTION_JUDGE_MAX_CANDIDATES, JUDGE_MAX_CANDIDATES), room))
  }

  method Recall(input: RecallInput, room: int) returns (found: seq<Candidate>)
    ensures found == Recalled(input, room)
  {
    var ceiling := Min(CONNECTION_JUDGE_MAX_CANDIDATES, JUDGE_MAX_CANDIDATES);
    var byId: seq<Candidate> := [];
    for i := 0 to |input.near|
      invariant byId == Near(input.near[..i])
    {
      assert input.near[..i + 1][..i] == input.near[..i];
      var score := ScoreOf(input.near[i].distance);
      if score >= CONNECTION_RECALL_FLOOR {
        byId := byId + [Candidate(input.near[i].item, Some(score))];
      }
    }
    assert input.near[..|input.near|] == input.near;
    for i := 0 to |input.tagged|
      invariant byId == WithTagged(Near(input.near), input.tagged[..i])
    {
      assert input.tagged[..i + 1][..i] == input.tagged[..i];
      if !Has(byId, input.tagged[i]) {
        byId := byId + [Candidate(input.tagged[i], None)];
      }
    }
    assert input.tagged[..|input.tagged|] == input.tagged;
    found := Take(SortBy(byId, RanksBefore(input)), Min(ceiling, room));
  }

  // ---- the decision ----

  /** The floor is the answer when nothing judged: scored candidates at or above it, as `related_to`. */
  ghost function FloorOnly(found: seq<Candidate>): seq<Proposal> {
    Take(AboveFloor(found), CONNECTION_MAX_CANDIDATES)
  }

  ghost function AboveFloor(found: seq<Candidate>): seq<Proposal> {
    if found == [] then []
    else
      var before, last := AboveFloor(found[..|found| - 1]), found[|found| - 1];
      if last.score.Some? && last.score.value >= CONNECTION_MIN_SCORE
      then before + [Proposal(last.item, last.score, RelatedTo, None, false)] else before
  }

  ghost function SentKeys(found: seq<Candidate>): set<string> {
    set i | 0 <= i < |found| :: KeyOf(i)
  }

  predicate Kept(j: Judgement) {
    j.keep && j.confidence >= CONNECTION_JUDGE_MIN_CONFIDENCE
  }

  ghost function CandidateFor(found: seq<Candidate>, key: string): Candidate
    requires key in SentKeys(found)
  {
    var i :| 0 <= i < |found| && KeyOf(i) == key;
    found[i]
  }

  ghost function ProposalFor(found: seq<Candidate>, j: Judgement): Proposal
    requires j.key in SentKeys(found)
  {
    var c := CandidateFor(found, j.key);
    Proposal(c.item, c.score, j.relation, if j.reason == "" then None else Some(j.reason), j.swap)
  }

  ghost function Proposals(found: seq<Candidate>, js: seq<Judgement>): seq<Proposal>
    requires KeysOf(js) <= SentKeys(found)
  {
    if js == [] then []
    else
      var front, last := js[..|js| - 1], js[|js| - 1];
      assert js == front + [last];
      var before := Proposals(found, front);
      assert last.key in KeysOf(js);
      if Kept(last) then before + [ProposalFor(found, last)] else before
  }

  ghost function Decided(found: seq<Candidate>, answer: JudgeAnswer): seq<Proposal> {
    if !answer.Answered? then FloorOnly(found)
    else
      var js := Validated(answer.entries, SentKeys(found));
      ValidatedKeys(answer.entries, SentKeys(found));
      if js == [] then FloorOnly(found) else Take(Proposals(found, js), CONNECTION_MAX_CANDIDATES)
  }

  /** The keys the candidates are sent under. */
  method Keyed(found: seq<Candidate>) returns (keyed: map<string, Candidate>)
    ensures keyed.Keys == SentKeys(found)
    ensures forall i | 0 <= i < |found| :: keyed[KeyOf(i)] == found[i]
  {
    keyed := map[];
    for i := 0 to |found|
      invariant keyed.Keys == set k | 0 <= k < i :: KeyOf(k)
      invariant forall k | 0 <= k < i :: keyed[KeyOf(k)] == found[k]
    {
      forall k | 0 <= k < i
        ensures KeyOf(k) != KeyOf(i)
      {
        if KeyOf(k) == KeyOf(i) {
          KeyInjective(k, i);
        }
      }
      keyed := keyed[KeyOf(i) := found[i]];
    }
  }

  lemma KeyedCandidate(found: seq<Candidate>, keyed: map<string, Candidate>, key: string)
    requires keyed.Keys == SentKeys(found) && key in SentKeys(found)
    requires forall i | 0 <= i < |found| :: keyed[KeyOf(i)] == found[i]
    ensures key in keyed && keyed[key] == CandidateFor(found, key)
  {
    var i :| 0 <= i < |found| && KeyOf(i) == key && found[i] == CandidateFor(found, key);
  }

  lemma ProposalsOneMore(found: seq<Candidate>, js: seq<Judgement>, n: nat)
    requires n < |js| && KeysOf(js) <= SentKeys(found)
    ensures KeysOf(js[..n]) <= SentKeys(found) && KeysOf(js[..n + 1]) <= SentKeys(found) && js[n].key in SentKeys(found)
    ensures Proposals(found, js[..n + 1]) ==
            if Kept(js[n]) then Proposals(found, js[..n]) + [ProposalFor(found, js[n])] else Proposals(found, js[..n])
  {
    assert js[..n + 1][..n] == js[..n];
    assert forall j | j in js[..n + 1] :: j in js;
    assert forall j | j in js :: j.key in KeysOf(js);
    assert forall j | j in js[..n] :: j in js[..n + 1];
  }

  method Decide(found: seq<Candidate>, answer: JudgeAnswer) returns (proposals: seq<Proposal>)
    ensures proposals == Decided(found, answer)
  {
    if !answer.Answered? {
      proposals := FloorOnlyOf(found);
      return;
    }
    var keyed := Keyed(found);
    var judgements := Validate(answer.entries, keyed.Keys);
    ValidatedKeys(answer.entries, keyed.Keys);
    proposals := [];
    for n := 0 to |judgements|
      invariant KeysOf(judgements[..n]) <= SentKeys(found)
      invariant proposals == Proposals(found, judgements[..n])
    {
      var j := judgements[n];
      ProposalsOneMore(found, judgements, n);
      if j.keep && j.confidence >= CONNECTION_JUDGE_MIN_CONFIDENCE {
        KeyedCandidate(found, keyed, j.key);
        var c := keyed[j.key];
        proposals := proposals + [Proposal(c.item, c.score, j.relation, if j.reason == ""
            then None else Some(j.reason), j.swap)];
      }
    }
    assert judgements[..|judgements|] == judgements;
    if proposals == [] && judgements == [] {
      proposals := FloorOnlyOf(found);
    } else {
      proposals := Take(proposals, CONNECTION_MAX_CANDIDATES);
    }
  }

  method FloorOnlyOf(found: seq<Candidate>) returns (proposals: seq<Proposal>)
    ensures proposals == FloorOnly(found)
  {
    proposals := [];
    for i := 0 to |found|
      invariant proposals == AboveFloor(found[..i])
    {
      assert found[..i + 1][..i] == found[..i];
      if found[i].score.Some? && found[i].score.value >= CONNECTION_MIN_SCORE {
        proposals := proposals + [Proposal(found[i].item, found[i].score, RelatedTo, None, false)];
      }
    }
    assert found[..|found|] == found;
    proposals := Take(proposals, CONNECTION_MAX_CANDIDATES);
  }

  // ---- derive ----

  /** What the two recall queries promise: different live memories of this owner, never the memory itself. */
  ghost predicate Recallable(items: Items, id: ItemId, input: RecallInput)
    requires id in items
  {
    && (forall h | h in input.near :: Owns(items, items[id].owner, h.item) && h.item != id)
    && (forall i, j | 0 <= i < j < |input.near| :: input.near[i].item != input.near[j].item)
    && (forall t | t in input.tagged :: Owns(items, items[id].owner, t) && t != id)
  }

  ghost function RecalledFor(g: Graph, items: Items, id: ItemId, input: RecallInput): seq<Candidate>
    requires id in items
  {
    Recalled(input, CONNECTION_MAX_PER_ITEM - |EdgesOf(g.edges, items[id].owner, id)|)
  }

  ghost function Derived(g: Graph, items: Items, id: ItemId, input: RecallInput, answer: JudgeAnswer,
      now: Time): Graph {
    if !Live(items, id) || !input.hasVector || |EdgesOf(g.edges, items[id].owner, id)| >= CONNECTION_MAX_PER_ITEM then g
    else SuggestedMany(g, items[id].owner, id, Decided(RecalledFor(g, items, id, input), answer), now)
  }

  class ConnectionDeriver {
    const repo: ConnectionRepository
    /** What the vault reads of this transaction see. */
    var items: Items

    constructor (repo: ConnectionRepository, items: Items)
      ensures this.repo == repo && this.items == items
    {
      this.repo, this.items := repo, items;
    }

    method Derive(id: ItemId, input: RecallInput, answer: JudgeAnswer, now: Time) returns (written: nat)
      requires Valid(repo.State())
      modifies repo
      ensures Valid(repo.State())
      ensures repo.State() == Derived(old(repo.State()), items, id, input, answer, now)
      ensures written == |repo.edges| - |old(repo.edges)|
    {
      if !Live(items, id) || !input.hasVector {
        return 0;
      }
      var owner := items[id].owner;
      var held := repo.CountForItem(owner, id);
      var room: int := CONNECTION_MAX_PER_ITEM - held;
      if room <= 0 {
        return 0;
      }
      var found := Recall(input, room);
      if found == [] {
        NothingRecalled(answer);
        return 0;
      }
      var proposals := Decide(found, answer);
      written := repo.SuggestMany(owner, id, proposals, now);
    }
  }

  /** Nothing recalled, nothing proposed, whatever was answered. */
  lemma NothingRecalled(answer: JudgeAnswer)
    ensures Decided([], answer) == []
  {
    if answer.Answered? {
      ValidatedKeys(answer.entries, SentKeys([]));
      var js := Validated(answer.entries, SentKeys([]));
      assert forall j | j in js :: j.key in KeysOf(js);
      assert forall i | 0 <= i < |js| :: js[i] in js;
    }
  }

  // ---- containment ----

  ghost predicate DistinctItems(found: seq<Candidate>) {
    forall i, j | 0 <= i < j < |found| :: found[i].item != found[j].item
  }

  ghost predicate DistinctTargets(ps: seq<Proposal>) {
    forall i, j | 0 <= i < j < |ps| :: ps[i].target != ps[j].target
  }

  /** Each proposal is about a recalled memory, carries that memory's score, and no memory is proposed twice. */
  ghost predicate DrawnFrom(ps: seq<Proposal>, found: seq<Candidate>) {
    DistinctTargets(ps) && forall p | p in ps :: Candidate(p.target, p.score) in found
  }

  lemma {:induction false} NearItems(near: seq<Hit>)
    requires forall i, j | 0 <= i < j < |near| :: near[i].item != near[j].item
    ensures DistinctItems(Near(near))
    ensures forall c | c in Near(near) :: exists h :: h in near && h.item == c.item
  {
    if near != [] {
      NearItems(near[..|near| - 1]);
      assert near == near[..|near| - 1] + [near[|near| - 1]];
    }
  }

  lemma {:induction false} TaggedItems(found: seq<Candidate>, tagged: seq<ItemId>)
    requires DistinctItems(found)
    ensures DistinctItems(WithTagged(found, tagged))
    ensures forall c | c in WithTagged(found, tagged) :: c in found || c.item in tagged
  {
    if tagged != [] {
      TaggedItems(found, tagged[..|tagged| - 1]);
      assert tagged == tagged[..|tagged| - 1] + [tagged[|tagged| - 1]];
    }
  }

  lemma InsertKeepsDistinct(x: Candidate, xs: seq<Candidate>, leq: (Candidate, Candidate) -> bool)
    requires DistinctItems(xs) && !Has(xs, x.item)
    ensures DistinctItems(InsertBy(x, xs, leq))
  {
    var k := InsertPosition(x, xs, leq);
    assert forall i | 0 <= i < |xs| :: xs[i] in xs;
  }

  lemma {:induction false} SortKeepsDistinct(xs: seq<Candidate>, leq: (Candidate, Candidate) -> bool)
    requires DistinctItems(xs)
    ensures DistinctItems(SortBy(xs, leq))
  {
    if xs != [] {
      SortKeepsDistinct(xs[..|xs| - 1], leq);
      InsertKeepsDistinct(xs[|xs| - 1], SortBy(xs[..|xs| - 1], leq), leq);
    }
  }

  lemma RecalledAreLiveMemories(items: Items, id: ItemId, input: RecallInput, room: nat)
    requires id in items && Recallable(items, id, input)
    ensures var found := Recalled(input, room);
            && DistinctItems(found) && |found| <= room && |found| <= CONNECTION_JUDGE_MAX_CANDIDATES
            && forall c | c in found :: Owns(items, items[id].owner, c.item) && c.item != id
  {
    NearItems(input.near);
    TaggedItems(Near(input.near), input.tagged);
    SortKeepsDistinct(WithTagged(Near(input.near), input.tagged), RanksBefore(input));
  }

  lemma {:induction false} FloorDrawnFrom(found: seq<Candidate>)
    requires DistinctItems(found)
    ensures DrawnFrom(AboveFloor(found), found)
  {
    if found != [] {
      FloorDrawnFrom(found[..|found| - 1]);
      assert found == found[..|found| - 1] + [found[|found| - 1]];
    }
  }

  lemma KeysOfParts(js: seq<Judgement>, front: seq<Judgement>, last: Judgement)
    requires js != [] && front == js[..|js| - 1] && last == js[|js| - 1]
    ensures js == front + [last] && KeysOf(front) <= KeysOf(js) && last.key in KeysOf(js)
  {
    assert js == front + [last];
    assert forall j | j in front :: j in js;
    assert last in js;
  }

  lemma {:induction false} ProposalsDrawnFrom(found: seq<Candidate>, js: seq<Judgement>)
    requires DistinctItems(found) && KeysOf(js) <= SentKeys(found)
    requires forall i, j | 0 <= i < j < |js| :: js[i].key != js[j].key
    ensures DrawnFrom(Proposals(found, js), found)
    ensures forall p | p in Proposals(found, js) :: exists j :: j in js && Kept(j) && p == ProposalFor(found, j)
  {
    if js != [] {
      var front, last := js[..|js| - 1], js[|js| - 1];
      KeysOfParts(js, front, last);
      ProposalsDrawnFrom(found, front);
      var before := Proposals(found, front);
      if Kept(last) {
        forall p | p in before
          ensures p.target != ProposalFor(found, last).target
        {
          var j :| j in front && Kept(j) && p == ProposalFor(found, j);
          DifferentKeysDifferentItems(found, j.key, last.key);
        }
      }
    }
  }

  lemma DifferentKeysDifferentItems(found: seq<Candidate>, k: string, l: string)
    requires DistinctItems(found) && k in SentKeys(found) && l in SentKeys(found) && k != l
    ensures CandidateFor(found, k).item != CandidateFor(found, l).item
    ensures CandidateFor(found, k) in found
  {
    var i :| 0 <= i < |found| && KeyOf(i) == k && found[i] == CandidateFor(found, k);
    var j :| 0 <= j < |found| && KeyOf(j) == l && found[j] == CandidateFor(found, l);
  }

  lemma DecidedDrawnFrom(found: seq<Candidate>, answer: JudgeAnswer)
    requires DistinctItems(found)
    ensures DrawnFrom(Decided(found, answer), found)
    ensures |Decided(found, answer)| <= CONNECTION_MAX_CANDIDATES && |Decided(found, answer)| <= |found|
  {
    FloorDrawnFrom(found);
    if answer.Answered? {
      ValidatedKeys(answer.entries, SentKeys(found));
      ProposalsDrawnFrom(found, Validated(answer.entries, SentKeys(found)));
    }
    NoMoreThanFound(Decided(found, answer), found);
  }

  lemma {:induction false} NoMoreThanFound(ps: seq<Proposal>, found: seq<Candidate>)
    requires DrawnFrom(ps, found)
    ensures |ps| <= |found|
  {
    var targets := set p | p in ps :: p.target;
    var items := set c | c in found :: c.item;
    TargetCount(ps);
    ItemCount(found);
    forall t | t in targets
      ensures t in items
    {
      var p :| p in ps && p.target == t;
      assert Candidate(p.target, p.score) in found;
    }
    SubsetCardinality(targets, items);
  }

  lemma {:induction false} TargetCount(ps: seq<Proposal>)
    requires DistinctTargets(ps)
    ensures |set p | p in ps :: p.target| == |ps|
  {
    if ps != [] {
      var front, last := ps[..|ps| - 1], ps[|ps| - 1];
      TargetCount(front);
      assert ps == front + [last];
      assert (set p | p in ps :: p.target) == (set p | p in front :: p.target) + {last.target};
    }
  }

  lemma {:induction false} ItemCount(found: seq<Candidate>)
    ensures |set c | c in found :: c.item| <= |found|
  {
    if found != [] {
      var front, last := found[..|found| - 1], found[|found| - 1];
      ItemCount(front);
      assert found == front + [last];
      assert (set c | c in found :: c.item) == (set c | c in front :: c.item) + {last.item};
    }
  }

  ghost predicate FromBatch(e: Edge, owner: UserId, item: ItemId, ps: seq<Proposal>, now: Time) {
    exists p :: p in ps && p.target != item && e == ProposedEdge(owner, item, p, now)
  }

  lemma InsertGrowth(g: Graph, owner: UserId, item: ItemId, e: Edge)
    requires g.next !in g.edges && e.owner == owner && Touches(e, item)
    ensures |EdgesOf(Inserted(g, e).edges, owner, item)| == |EdgesOf(g.edges, owner, item)| + 1
  {
    assert EdgesOf(Inserted(g, e).edges, owner, item) == EdgesOf(g.edges, owner, item) + {g.next};
  }

  lemma OneProposalGrowth(g: Graph, owner: UserId, item: ItemId, p: Proposal, now: Time)
    requires Valid(g)
    ensures var t := SuggestedOne(g, owner, item, p, now);
            && |EdgesOf(t.edges, owner, item)| <= |EdgesOf(g.edges, owner, item)| + 1
            && t.edges.Keys <= g.edges.Keys + {g.next}
            && (forall id | id in t.edges && id !in g.edges ::
                p.target != item && t.edges[id] == ProposedEdge(owner, item, p, now))
  {
    var e := ProposedEdge(owner, item, p, now);
    if SuggestedOne(g, owner, item, p, now) != g {
      assert e.owner == owner && Touches(e, item);
      InsertGrowth(g, owner, item, e);
    }
  }

  /** A batch adds at most one edge a proposal, to the table and to the memory's own page. */
  lemma {:induction false} BatchGrowth(g: Graph, owner: UserId, item: ItemId, ps: seq<Proposal>, now: Time)
    requires Valid(g)
    ensures var t := SuggestedMany(g, owner, item, ps, now);
            && |EdgesOf(t.edges, owner, item)| <= |EdgesOf(g.edges, owner, item)| + |ps|
            && |t.edges.Keys - g.edges.Keys| <= |ps|
            && (forall id | id in t.edges && id !in g.edges :: FromBatch(t.edges[id], owner, item, ps, now))
  {
    if ps != [] {
      var front, p := ps[..|ps| - 1], ps[|ps| - 1];
      assert ps == front + [p];
      BatchGrowth(g, owner, item, front, now);
      EdgeHistory.SuggestedManyKeepsValid(g, owner, item, front, now);
      var before := SuggestedMany(g, owner, item, front, now);
      OneProposalGrowth(before, owner, item, p, now);
      NewKeys(SuggestedOne(before, owner, item, p, now).edges.Keys, before.edges.Keys, g.edges.Keys, before.next);
      BatchOneMore(g, before, owner, item, front, p, now);
    } else {
      assert g.edges.Keys - g.edges.Keys == {};
    }
  }

  lemma BatchOneMore(g: Graph, before: Graph, owner: UserId, item: ItemId, front: seq<Proposal>, p: Proposal, now: Time)
    requires Valid(before)
    requires forall id | id in before.edges && id !in g.edges :: FromBatch(before.edges[id], owner, item, front, now)
    ensures var t := SuggestedOne(before, owner, item, p, now);
            forall id | id in t.edges && id !in g.edges :: FromBatch(t.edges[id], owner, item, front + [p], now)
  {
    var t := SuggestedOne(before, owner, item, p, now);
    OneProposalGrowth(before, owner, item, p, now);
    forall id | id in t.edges && id !in g.edges
      ensures FromBatch(t.edges[id], owner, item, front + [p], now)
    {
      if id in before.edges {
        var q :| q in front && q.target != item && before.edges[id] == ProposedEdge(owner, item, q, now);
        assert q in front + [p];
      } else {
        assert p in front + [p];
      }
    }
  }

  lemma NewKeys(after: set<EdgeId>, before: set<EdgeId>, start: set<EdgeId>, next: EdgeId)
    requires after <= before + {next}
    ensures |after - start| <= |before - start| + 1
  {
    assert after - start <= (before - start) + {next};
    SubsetCardinality(after - start, (before - start) + {next});
  }

  /**
   One derived row: a suggestion of the model's, between the derived memory and a recalled live one of
   the same owner.
   */
  predicate IsContained(e: Edge, items: Items, id: ItemId, found: seq<Candidate>)
    requires id in items
  {
    && e.status.Suggested? && e.origin.Ai? && e.note.None? && e.owner == items[id].owner
    && exists c | c in found ::
         && HasPair(e, items[id].owner, id, c.item) && c.item != id && e.score == c.score
         && Owns(items, items[id].owner, c.item)
  }

  /**
   For any answer of the judge, `derive` leaves existing edges as they were, writes at most
   CONNECTION_MAX_CANDIDATES contained suggestions, and never takes the memory past its ceiling.
   */
  lemma DeriveIsContained(g: Graph, items: Items, id: ItemId, input: RecallInput, answer: JudgeAnswer, now: Time)
    requires Valid(g) && Live(items, id) && Recallable(items, id, input)
    ensures var t := Derived(g, items, id, input, answer, now);
            var owner := items[id].owner;
            && Valid(t)
            && (forall e | e in g.edges :: e in t.edges && t.edges[e] == g.edges[e])
            && (forall e | e in t.edges && e !in g.edges ::
                  IsContained(t.edges[e], items, id, RecalledFor(g, items, id, input)))
            && |t.edges.Keys - g.edges.Keys| <= CONNECTION_MAX_CANDIDATES
            && (|EdgesOf(t.edges, owner, id)| <= |EdgesOf(g.edges, owner, id)|
                || |EdgesOf(t.edges, owner, id)| <= CONNECTION_MAX_PER_ITEM)
  {
    var owner := items[id].owner;
    var held := |EdgesOf(g.edges, owner, id)|;
    if input.hasVector && held < CONNECTION_MAX_PER_ITEM {
      var found := RecalledFor(g, items, id, input);
      RecalledAreLiveMemories(items, id, input, CONNECTION_MAX_PER_ITEM - held);
      DecidedDrawnFrom(found, answer);
      BatchIsContained(g, items, id, found, Decided(found, answer), now);
    } else {
      assert g.edges.Keys - g.edges.Keys == {};
    }
  }

  lemma BatchIsContained(g: Graph, items: Items, id: ItemId, found: seq<Candidate>, ps: seq<Proposal>, now: Time)
    requires Valid(g) && id in items && DrawnFrom(ps, found)
    requires forall c | c in found :: Owns(items, items[id].owner, c.item) && c.item != id
    ensures var t := SuggestedMany(g, items[id].owner, id, ps, now);
            && Valid(t)
            && (forall e | e in g.edges :: e in t.edges && t.edges[e] == g.edges[e])
            && (forall e | e in t.edges && e !in g.edges :: IsContained(t.edges[e], items, id, found))
            && |t.edges.Keys - g.edges.Keys| <= |ps|
            && |EdgesOf(t.edges, items[id].owner, id)| <= |EdgesOf(g.edges, items[id].owner, id)| + |ps|
  {
    var owner := items[id].owner;
    EdgeHistory.SuggestedManyKeepsValid(g, owner, id, ps, now);
    EdgeHistory.SuggestedManyOnlyAdds(g, owner, id, ps, now);
    BatchGrowth(g, owner, id, ps, now);
    var t := SuggestedMany(g, owner, id, ps, now);
    forall e | e in t.edges && e !in g.edges
      ensures IsContained(t.edges[e], items, id, found)
    {
      assert FromBatch(t.edges[e], owner, id, ps, now);
      var p :| p in ps && p.target != id && t.edges[e] == ProposedEdge(owner, id, p, now);
      ProposalIsContained(items, id, found, p, now);
    }
  }

  lemma ProposalIsContained(items: Items, id: ItemId, found: seq<Candidate>, p: Proposal, now: Time)
    requires id in items && Candidate(p.target, p.score) in found
    requires Owns(items, items[id].owner, p.target) && p.target != id
    ensures IsContained(ProposedEdge(items[id].owner, id, p, now), items, id, found)
  {
    var c := Candidate(p.target, p.score);
    assert HasPair(ProposedEdge(items[id].owner, id, p, now), items[id].owner, id, c.item);
  }

  // ---- why each proposal was made ----

  /** A kept, confident judgement about a recalled memory, in the model's words. */
  ghost predicate Judged(p: Proposal, found: seq<Candidate>, answer: JudgeAnswer) {
    answer.Answered? &&
    exists e | e in answer.entries ::
      && e.Entry? && Strip(e.key) in SentKeys(found) && Kept(ReadEntry(e)) && p == ProposalFor(found, ReadEntry(e))
  }

  /** Nothing judged, and the score alone clears the decision floor: the weakest claim there is. */
  predicate AboveTheFloor(p: Proposal) {
    p.score.Some? && p.score.value >= CONNECTION_MIN_SCORE && p.relation.RelatedTo? && p.aiReason.None? && !p.swap
  }

  lemma {:induction false} FloorIsAboveTheFloor(found: seq<Candidate>)
    ensures forall p | p in AboveFloor(found) :: AboveTheFloor(p)
  {
    if found != [] {
      FloorIsAboveTheFloor(found[..|found| - 1]);
    }
  }

  lemma {:induction false} ValidatedComesFromEntries(entries: seq<Entry>, allowed: set<string>)
    ensures forall j | j in Validated(entries, allowed) ::
              exists e | e in entries :: e.Entry? && Strip(e.key) in allowed && j == ReadEntry(e)
  {
    if entries != [] {
      var front := entries[..|entries| - 1];
      ValidatedComesFromEntries(front, allowed);
      assert entries == front + [entries[|entries| - 1]];
      assert forall e | e in front :: e in entries;
    }
  }

  /** Every proposal is a kept judgement; only when nothing at all was judged does the floor speak. */
  lemma DecidedIsJustified(found: seq<Candidate>, answer: JudgeAnswer, p: Proposal)
    requires DistinctItems(found) && p in Decided(found, answer)
    ensures if answer.Answered? && Validated(answer.entries, SentKeys(found)) != [] then Judged(p, found, answer)
            else AboveTheFloor(p)
  {
    FloorIsAboveTheFloor(found);
    if answer.Answered? {
      ValidatedKeys(answer.entries, SentKeys(found));
      var js := Validated(answer.entries, SentKeys(found));
      if js != [] {
        ProposalsDrawnFrom(found, js);
        ValidatedComesFromEntries(answer.entries, SentKeys(found));
        var j :| j in js && Kept(j) && p == ProposalFor(found, j);
        var e :| e in answer.entries && e.Entry? && Strip(e.key) in SentKeys(found) && j == ReadEntry(e);
      }
    }
  }

  /** Entry `i` is a first use, kept, and confident enough. */
  ghost predicate KeptFirstUse(found: seq<Candidate>, entries: seq<Entry>, i: nat) {
    FirstUse(entries, SentKeys(found), i) && Kept(ReadEntry(entries[i]))
  }

  /** The proposals are the kept first uses from the front of the answer, and all of them short of the ceiling. */
  ghost predicate ProposedFrom(ps: seq<Proposal>, found: seq<Candidate>, entries: seq<Entry>, places: seq<nat>) {
    && |places| == |ps| && Increasing(places)
    && (forall n | 0 <= n < |ps| ::
          KeptFirstUse(found, entries, places[n]) && ps[n] == ProposalFor(found, ReadEntry(entries[places[n]])))
    && (forall i: nat | KeptFirstUse(found, entries, i) ::
          i in places || (|ps| == CONNECTION_MAX_CANDIDATES && forall n | 0 <= n < |ps| :: places[n] < i))
  }

  /** Which judgements the proposals were made of. */
  ghost predicate PickedFrom(ps: seq<Proposal>, found: seq<Candidate>, js: seq<Judgement>, picks: seq<nat>) {
    && |picks| == |ps| && Increasing(picks)
    && (forall n | 0 <= n < |ps| :: picks[n] < |js| && IsPick(ps[n], found, js[picks[n]]))
    && (forall m: nat | m < |js| && Kept(js[m]) :: m in picks)
  }

  ghost predicate IsPick(p: Proposal, found: seq<Candidate>, j: Judgement) {
    Kept(j) && j.key in SentKeys(found) && p == ProposalFor(found, j)
  }

  lemma OneMorePick(ps: seq<Proposal>, found: seq<Candidate>, front: seq<Judgement>, last: Judgement, earlier: seq<nat>)
    requires PickedFrom(ps, found, front, earlier) && last.key in SentKeys(found)
    ensures if Kept(last) then PickedFrom(ps + [ProposalFor(found, last)], found, front + [last], earlier + [|front|])
            else PickedFrom(ps, found, front + [last], earlier)
  {
    var js, picks := front + [last], earlier + [|front|];
    assert IsPick(ProposalFor(found, last), found, last) <==> Kept(last);
    forall n | 0 <= n < |ps|
      ensures earlier[n] < |front| && IsPick(ps[n], found, js[earlier[n]])
    {
      assert js[earlier[n]] == front[earlier[n]];
    }
    forall m: nat | m < |front| && Kept(js[m])
      ensures m in earlier && m in picks
    {
      assert js[m] == front[m];
    }
    assert picks[|earlier|] == |front|;
  }

  lemma {:induction false} ProposalsPicked(found: seq<Candidate>, js: seq<Judgement>) returns (picks: seq<nat>)
    requires KeysOf(js) <= SentKeys(found)
    ensures PickedFrom(Proposals(found, js), found, js, picks)
  {
    if js == [] {
      picks := [];
    } else {
      var front, last := js[..|js| - 1], js[|js| - 1];
      KeysOfParts(js, front, last);
      picks := ProposalsPicked(found, front);
      OneMorePick(Proposals(found, front), found, front, last, picks);
      if Kept(last) {
        picks := picks + [|front|];
      }
    }
  }

  /** What was picked, traced back to the answer and cut at the ceiling. */
  lemma PicksComeFromAnswer(found: seq<Candidate>, entries: seq<Entry>, js: seq<Judgement>, ps: seq<Proposal>,
                            read: seq<nat>, picks: seq<nat>) returns (places: seq<nat>)
    requires PickedFrom(ps, found, js, picks) && ReadFrom(js, entries, SentKeys(found), read)
    ensures ProposedFrom(Take(ps, CONNECTION_MAX_CANDIDATES), found, entries, places)
  {
    var taken := Take(ps, CONNECTION_MAX_CANDIDATES);
    places := seq(|taken|, n requires 0 <= n < |taken| => read[picks[n]]);
    forall n | 0 <= n < |taken|
      ensures KeptFirstUse(found, entries, places[n]) && taken[n] == ProposalFor(found, ReadEntry(entries[places[n]]))
    {
      assert IsPick(ps[n], found, js[picks[n]]) && FirstUse(entries, SentKeys(found), read[picks[n]]);
    }
    forall i: nat | KeptFirstUse(found, entries, i)
      ensures i in places || (|taken| == CONNECTION_MAX_CANDIDATES && forall n | 0 <= n < |taken| :: places[n] < i)
    {
      var n := PlaceOf(found, entries, js, ps, read, picks, i);
      if n < |taken| {
        assert places[n] == i;
      }
    }
  }

  lemma PlaceOf(found: seq<Candidate>, entries: seq<Entry>, js: seq<Judgement>, ps: seq<Proposal>,
                read: seq<nat>, picks: seq<nat>, i: nat) returns (n: nat)
    requires PickedFrom(ps, found, js, picks) && ReadFrom(js, entries, SentKeys(found), read)
    requires KeptFirstUse(found, entries, i)
    ensures n < |ps| && read[picks[n]] == i
  {
    assert i in read;
    var m: nat :| m < |read| && read[m] == i;
    assert js[m] == ReadEntry(entries[i]) && m in picks;
    n :| n < |picks| && picks[n] == m;
  }

  lemma DecidedPlaces(found: seq<Candidate>, entries: seq<Entry>) returns (places: seq<nat>)
    requires Validated(entries, SentKeys(found)) != []
    ensures ProposedFrom(Decided(found, Answered(entries)), found, entries, places)
  {
    var js := Validated(entries, SentKeys(found));
    ValidatedKeys(entries, SentKeys(found));
    var read := ReadFromAnswer(entries, SentKeys(found));
    var picks := ProposalsPicked(found, js);
    var ps := Proposals(found, js);
    assert Decided(found, Answered(entries)) == Take(ps, CONNECTION_MAX_CANDIDATES);
    places := PicksComeFromAnswer(found, entries, js, ps, read, picks);
  }

  /**
   Once anything was judged, the proposals are the kept, confident first judgements in the order of
   the answer: every one of them, unless CONNECTION_MAX_CANDIDATES stood before it.
   */
  lemma DecidedInAnswerOrder(found: seq<Candidate>, entries: seq<Entry>)
    requires Validated(entries, SentKeys(found)) != []
    ensures exists places :: ProposedFrom(Decided(found, Answered(entries)), found, entries, places)
  {
    var places := DecidedPlaces(found, entries);
  }

  lemma SomethingWasKept(ps: seq<Proposal>, found: seq<Candidate>, entries: seq<Entry>, places: seq<nat>)
    requires ProposedFrom(ps, found, entries, places)
    ensures ps != [] ==> exists i: nat :: KeptFirstUse(found, entries, i)
  {
    if ps != [] {
      assert KeptFirstUse(found, entries, places[0]);
    }
  }

  /**
   An answer that keeps nothing proposes nothing once anything was judged: it leads where the floor
   leads if and only if nothing was judged or no score clears the floor either.
   */
  lemma RefusalIsFinal(found: seq<Candidate>, entries: seq<Entry>)
    requires forall i: nat :: !KeptFirstUse(found, entries, i)
    ensures Decided(found, Answered(entries)) ==
            if Validated(entries, SentKeys(found)) == [] then FloorOnly(found) else []
    ensures Decided(found, Answered(entries)) == FloorOnly(found) <==>
            Validated(entries, SentKeys(found)) == [] || FloorOnly(found) == []
  {
    if Validated(entries, SentKeys(found)) != [] {
      var places := DecidedPlaces(found, entries);
      SomethingWasKept(Decided(found, Answered(entries)), found, entries, places);
    }
  }

  /** One near memory, and a judge that says no to it: nothing is proposed, where the floor would propose it. */
  lemma RefusedNearMemory(c: Candidate, e: Entry)
    requires c.score.Some? && c.score.value >= CONNECTION_MIN_SCORE
    requires e.Entry? && Strip(e.key) == KeyOf(0) && !e.keep
    ensures Decided([c], Answered([e])) == []
    ensures FloorOnly([c]) == [Proposal(c.item, c.score, RelatedTo, None, false)]
  {
    assert KeyOf(0) in SentKeys([c]);
    assert [e][..0] == [] && [c][..0] == [];
    assert Validated([e], SentKeys([c])) == [ReadEntry(e)];
    assert AboveFloor([c]) == [] + [Proposal(c.item, c.score, RelatedTo, None, false)];
    RefusalIsFinal([c], [e]);
  }

  /** Score 0.9, key `c1`, `keep` false. */
  lemma RefusalLosesTheFloor()
    ensures var c, e := Candidate(7, Some(0.9)), Entry("c1", false, None, false, "", Some(1.0));
            Decided([c], Answered([e])) == [] && FloorOnly([c]) != []
  {
    assert KeyOf(0) == "c" + Decimal(1) == "c1";
    assert LStrip("c1") == "c1" && RStrip("c1") == "c1";
    RefusedNearMemory(Candidate(7, Some(0.9)), Entry("c1", false, None, false, "", Some(1.0)));
  }

  // ---- the order of the judgements ----

  /** The candidate sent as `k` was sent before the one sent as `l`. */
  ghost predicate SentBefore(k: string, l: string) {
    forall a: nat, b: nat | k == KeyOf(a) && l == KeyOf(b) :: a < b
  }

  /** The judgements stand in the order their candidates were sent in. */
  ghost predicate InSentOrder(js: seq<Judgement>) {
    forall m, n | 0 <= m < n < |js| :: SentBefore(js[m].key, js[n].key)
  }

  ghost predicate AnsweredInSentOrder(entries: seq<Entry>, allowed: set<string>) {
    forall i: nat, j: nat | i < j && FirstUse(entries, allowed, i) && FirstUse(entries, allowed, j) ::
      SentBefore(Strip(entries[i].key), Strip(entries[j].key))
  }

  /** Judgements come back in the order sent exactly when the model answered in that order. */
  lemma SentOrderIff(entries: seq<Entry>, allowed: set<string>)
    ensures InSentOrder(Validated(entries, allowed)) <==> AnsweredInSentOrder(entries, allowed)
  {
    var places := ReadFromAnswer(entries, allowed);
    SentOrderFrom(Validated(entries, allowed), entries, allowed, places);
  }

  lemma SmallerPlace(places: seq<nat>, n: nat, m: nat)
    requires Increasing(places) && n < |places| && m < |places|
    ensures n < m ==> places[n] < places[m]
  {
  }

  lemma SentOrderFrom(js: seq<Judgement>, entries: seq<Entry>, allowed: set<string>, places: seq<nat>)
    requires ReadFrom(js, entries, allowed, places)
    ensures InSentOrder(js) <==> AnsweredInSentOrder(entries, allowed)
  {
    forall m, n | 0 <= m < n < |js| && AnsweredInSentOrder(entries, allowed)
      ensures SentBefore(js[m].key, js[n].key)
    {
      assert FirstUse(entries, allowed, places[m]) && FirstUse(entries, allowed, places[n]);
    }
    forall i: nat, j: nat | i < j && FirstUse(entries, allowed, i) && FirstUse(entries, allowed, j) && InSentOrder(js)
      ensures SentBefore(Strip(entries[i].key), Strip(entries[j].key))
    {
      var m: nat :| m < |places| && places[m] == i;
      var n: nat :| n < |places| && places[n] == j;
      SmallerPlace(places, n, m);
      assert js[m].key == Strip(entries[i].key) && js[n].key == Strip(entries[j].key);
    }
  }

  /** Two candidates answered the other way round come back the other way round. */
  lemma OutOfOrderAnswer(second: Entry, first: Entry)
    requires second.Entry? && Strip(second.key) == KeyOf(1) && first.Entry? && Strip(first.key) == KeyOf(0)
    ensures Validated([second, first], {KeyOf(0), KeyOf(1)}) == [ReadEntry(second), ReadEntry(first)]
    ensures !InSentOrder(Validated([second, first], {KeyOf(0), KeyOf(1)}))
  {
    var allowed := {KeyOf(0), KeyOf(1)};
    if KeyOf(0) == KeyOf(1) {
      KeyInjective(0, 1);
    }
    assert [second, first][..1] == [second] && [second][..0] == [];
    assert Validated([second], allowed) == [ReadEntry(second)];
    var js := [ReadEntry(second), ReadEntry(first)];
    assert !SentBefore(js[0].key, js[1].key);
  }

  /** What recall hands on is ranked, and nothing it leaves behind ranks strictly before something it keeps. */
  lemma RecallKeepsTheBest(input: RecallInput, room: int)
    ensures var all := WithTagged(Near(input.near), input.tagged);
            var found := Recalled(input, room);
            && Sorted(found, RanksBefore(input))
            && (forall c | c in found :: c in all)
            && forall c, kept | c in all && c !in found && kept in found :: RanksBefore(input)(kept, c)
  {
    var all := WithTagged(Near(input.near), input.tagged);
    var ranked := SortBy(all, RanksBefore(input));
    SortIsSorted(all, RanksBefore(input));
    var found := Recalled(input, room);
    forall c, kept | c in all && c !in found && kept in found
      ensures RanksBefore(input)(kept, c)
    {
      assert c in ranked;
      var i :| 0 <= i < |ranked| && ranked[i] == c;
      var j :| 0 <= j < |found| && found[j] == kept;
      assert forall k | 0 <= k < |found| :: found[k] in found;
      assert ranked[j] == kept && j < i;
    }
  }
}
