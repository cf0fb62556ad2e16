/** Collecting links from several texts, most trusted first; matching and normalising one link is abstract. */
module Links {
  import opened Base

  /** A text as the scanner sees it: per match the normalised link, or `None` where it was refused. */
  type Matches = seq<Option<string>>

  datatype Tagged = Tagged(url: string, source: string)

  /** The key a link is deduplicated by, `url.lower()`. */
  type KeyFn = string -> string

  /** Every accepted link of a text, tagged with where the text came from. */
  function Accepted(matches: Matches, source: string): seq<Tagged> {
    if matches == [] then []
    else
      var last := matches[|matches| - 1];
      Accepted(matches[..|matches| - 1], source) + if last.Some? then [Tagged(last.value, source)] else []
  }

  function AllAccepted(texts: seq<(string, Matches)>): seq<Tagged> {
    if texts == [] then []
    else
      var last := texts[|texts| - 1];
      AllAccepted(texts[..|texts| - 1]) + Accepted(last.1, last.0)
  }

  // ---- first-seen deduplication ----

  function Keys(links: seq<Tagged>, key: KeyFn): set<string> {
    set l | l in links :: key(l.url)
  }

  function Deduped(links: seq<Tagged>, key: KeyFn): seq<Tagged> {
    if links == [] then []
    else
      var before, last := Deduped(links[..|links| - 1], key), links[|links| - 1];
      if key(last.url) in Keys(before, key) then before else before + [last]
  }

  ghost predicate IsFirst(links: seq<Tagged>, l: Tagged, key: KeyFn) {
    exists i :: 0 <= i < |links| && links[i] == l && forall j | 0 <= j < i :: key(links[j].url) != key(l.url)
  }

  ghost predicate DistinctKeys(links: seq<Tagged>, key: KeyFn) {
    forall i, j | 0 <= i < j < |links| :: key(links[i].url) != key(links[j].url)
  }

  function Pushed(kept: seq<Tagged>, l: Tagged, key: KeyFn): seq<Tagged> {
    if key(l.url) in Keys(kept, key) then kept else kept + [l]
  }

  lemma DedupedOneMore(links: seq<Tagged>, l: Tagged, key: KeyFn)
    ensures Deduped(links + [l], key) == Pushed(Deduped(links, key), l, key)
  {
    assert (links + [l])[..|links|] == links;
  }

  lemma KeysOneMore(links: seq<Tagged>, l: Tagged, key: KeyFn)
    ensures Keys(links + [l], key) == Keys(links, key) + {key(l.url)}
  {
  }

  lemma {:induction false} DedupedKeys(links: seq<Tagged>, key: KeyFn)
    ensures Keys(Deduped(links, key), key) == Keys(links, key) && DistinctKeys(Deduped(links, key), key)
  {
    if links != [] {
      var front, last := links[..|links| - 1], links[|links| - 1];
      assert links == front + [last];
      DedupedKeys(front, key);
      KeysOneMore(front, last, key);
      KeysOneMore(Deduped(front, key), last, key);
      assert forall l | l in Deduped(front, key) :: key(l.url) in Keys(Deduped(front, key), key);
    }
  }

  lemma FirstStaysFirst(front: seq<Tagged>, last: Tagged, l: Tagged, key: KeyFn)
    requires IsFirst(front, l, key)
    ensures IsFirst(front + [last], l, key)
  {
    var i :| 0 <= i < |front| && front[i] == l && forall j | 0 <= j < i :: key(front[j].url) != key(l.url);
    assert (front + [last])[i] == l;
  }

  lemma NewIsFirst(front: seq<Tagged>, last: Tagged, key: KeyFn)
    requires key(last.url) !in Keys(front, key)
    ensures IsFirst(front + [last], last, key)
  {
    var links := front + [last];
    forall j | 0 <= j < |front|
      ensures key(links[j].url) != key(last.url)
    {
      assert links[j] in front;
    }
    assert links[|front|] == last;
  }

  /** Dedupe keeps exactly the first link of every key. */
  lemma {:induction false} DedupedIsFirstSeen(links: seq<Tagged>, key: KeyFn)
    ensures Keys(Deduped(links, key), key) == Keys(links, key) && DistinctKeys(Deduped(links, key), key)
    ensures forall l | l in Deduped(links, key) :: IsFirst(links, l, key)
  {
    DedupedKeys(links, key);
    if links != [] {
      var front, last := links[..|links| - 1], links[|links| - 1];
      assert links == front + [last];
      DedupedIsFirstSeen(front, key);
      forall l | l in Deduped(links, key)
        ensures IsFirst(links, l, key)
      {
        if l in Deduped(front, key) {
          FirstStaysFirst(front, last, l, key);
        } else {
          NewIsFirst(front, last, key);
        }
      }
    }
  }

  /** What was kept so far is never displaced by what comes later. */
  lemma {:induction false} DedupedGrows(a: seq<Tagged>, b: seq<Tagged>, key: KeyFn)
    requires a <= b
    ensures Deduped(a, key) <= Deduped(b, key)
    decreases |b|
  {
    if |a| < |b| {
      DedupedGrows(a, b[..|b| - 1], key);
    } else {
      assert a == b;
    }
  }

  // ---- cutting at the limit ----

  /** `links` is what a run with this limit holds after seeing `all`. */
  ghost predicate Held(links: seq<Tagged>, all: seq<Tagged>, limit: int, key: KeyFn) {
    links == Take(Deduped(all, key), limit)
  }

  lemma FullStays(links: seq<Tagged>, all: seq<Tagged>, more: seq<Tagged>, limit: int, key: KeyFn)
    requires Held(links, all, limit, key) && |links| >= limit && all <= more
    ensures Held(links, more, limit, key)
  {
    DedupedGrows(all, more, key);
  }

  lemma HeldOneMore(links: seq<Tagged>, all: seq<Tagged>, l: Tagged, limit: int, key: KeyFn)
    requires Held(links, all, limit, key) && |links| < limit
    ensures Held(Pushed(links, l, key), all + [l], limit, key)
  {
    DedupedOneMore(all, l, key);
  }

  // ---- prefixes of the input ----

  lemma {:induction false} AcceptedGrows(matches: Matches, m: nat, source: string)
    requires m <= |matches|
    ensures Accepted(matches[..m], source) <= Accepted(matches, source)
    decreases |matches|
  {
    if m < |matches| {
      AcceptedGrows(matches[..|matches| - 1], m, source);
      assert matches[..|matches| - 1][..m] == matches[..m];
    } else {
      assert matches[..m] == matches;
    }
  }

  lemma {:induction false} AllAcceptedGrows(texts: seq<(string, Matches)>, n: nat)
    requires n <= |texts|
    ensures AllAccepted(texts[..n]) <= AllAccepted(texts)
    decreases |texts|
  {
    if n < |texts| {
      AllAcceptedGrows(texts[..|texts| - 1], n);
      assert texts[..|texts| - 1][..n] == texts[..n];
    } else {
      assert texts[..n] == texts;
    }
  }

  // ---- one call over several texts ----

  lemma AcceptedStep(all: seq<Tagged>, matches: Matches, m: nat, source: string)
    requires m < |matches|
    ensures all + Accepted(matches[..m + 1], source) ==
            if matches[m].None? then all + Accepted(matches[..m], source)
            else (all + Accepted(matches[..m], source)) + [Tagged(matches[m].value, source)]
    ensures all + Accepted(matches[..m], source) <= all + Accepted(matches, source)
  {
    assert matches[..m + 1][..m] == matches[..m];
    AcceptedGrows(matches, m, source);
    if matches[m].Some? {
      Regrouped(all, Accepted(matches[..m], source), Tagged(matches[m].value, source));
    } else {
      assert Accepted(matches[..m], source) + [] == Accepted(matches[..m], source);
    }
  }

  /** One text's matches against what is held already; stops as soon as the limit is reached. */
  method ScanText(held: seq<Tagged>, ghost all: seq<Tagged>, matches: Matches, source: string, limit: int, key: KeyFn)
    returns (links: seq<Tagged>)
    requires Held(held, all, limit, key)
    ensures Held(links, all + Accepted(matches, source), limit, key)
  {
    links := held;
    var seen := Keys(links, key);
    assert all + [] == all;
    for m := 0 to |matches|
      invariant Held(links, all + Accepted(matches[..m], source), limit, key)
      invariant seen == Keys(links, key)
    {
      ghost var sofar := all + Accepted(matches[..m], source);
      AcceptedStep(all, matches, m, source);
      if |links| >= limit {
        FullStays(links, sofar, all + Accepted(matches, source), limit, key);
        return;
      }
      if matches[m].None? {
        continue;
      }
      var l := Tagged(matches[m].value, source);
      HeldOneMore(links, sofar, l, limit, key);
      if key(l.url) in seen {
        continue;
      }
      KeysOneMore(links, l, key);
      seen := seen + {key(l.url)};
      links := links + [l];
    }
    assert matches[..|matches|] == matches;
  }

  /** `extract_links`: the first `limit` links of the texts, each key once, in first-seen order. */
  method ExtractLinks(texts: seq<(string, Matches)>, limit: int, key: KeyFn) returns (links: seq<Tagged>)
    ensures links == Take(Deduped(AllAccepted(texts), key), limit)
  {
    links := [];
    for n := 0 to |texts|
      invariant Held(links, AllAccepted(texts[..n]), limit, key)
    {
      assert texts[..n + 1][..n] == texts[..n];
      links := ScanText(links, AllAccepted(texts[..n]), texts[n].1, texts[n].0, limit, key);
    }
    assert texts[..|texts|] == texts;
  }

  // ---- collecting from several sources ----

  /** Deduplicating a later source first changes nothing. */
  lemma {:induction false} DedupeInner(before: seq<Tagged>, links: seq<Tagged>, key: KeyFn)
    ensures Deduped(before + links, key) == Deduped(before + Deduped(links, key), key)
  {
    if links != [] {
      var front, last := links[..|links| - 1], links[|links| - 1];
      DedupeInner(before, front, key);
      DedupeInnerOneMore(before, front, last, key);
      assert links == front + [last];
    }
  }

  lemma Regrouped(x: seq<Tagged>, y: seq<Tagged>, l: Tagged)
    ensures x + (y + [l]) == (x + y) + [l]
  {
  }

  lemma DedupeInnerOneMore(before: seq<Tagged>, front: seq<Tagged>, last: Tagged, key: KeyFn)
    requires Deduped(before + front, key) == Deduped(before + Deduped(front, key), key)
    ensures Deduped(before + (front + [last]), key) == Deduped(before + Deduped(front + [last], key), key)
  {
    var all, d := before + front, Deduped(front, key);
    Regrouped(before, front, last);
    DedupedOneMore(all, last, key);
    DedupedOneMore(front, last, key);
    if key(last.url) in Keys(d, key) {
      SeenInside(before, front, last, key);
    } else {
      Regrouped(before, d, last);
      DedupedOneMore(before + d, last, key);
    }
  }

  lemma SeenInside(before: seq<Tagged>, front: seq<Tagged>, last: Tagged, key: KeyFn)
    requires key(last.url) in Keys(Deduped(front, key), key)
    ensures key(last.url) in Keys(Deduped(before + front, key), key)
  {
    DedupedKeys(front, key);
    DedupedKeys(before + front, key);
    KeysOfBoth(before, front, key);
  }

  lemma KeysOfBoth(a: seq<Tagged>, b: seq<Tagged>, key: KeyFn)
    ensures Keys(a + b, key) == Keys(a, key) + Keys(b, key)
  {
  }

  lemma {:induction false} DistinctKeyCount(links: seq<Tagged>, key: KeyFn)
    ensures DistinctKeys(links, key) ==> |Keys(links, key)| == |links|
    ensures |Keys(links, key)| <= |links|
  {
    if links != [] {
      var front, last := links[..|links| - 1], links[|links| - 1];
      assert links == front + [last];
      DistinctKeyCount(front, key);
      KeysOneMore(front, last, key);
    }
  }

  lemma CappedIsFull(before: seq<Tagged>, d: seq<Tagged>, limit: nat, key: KeyFn)
    requires DistinctKeys(d, key) && limit <= |d|
    ensures |Deduped(before + d[..limit], key)| >= limit
  {
    var capped := d[..limit];
    DistinctKeyCount(capped, key);
    KeysOfBoth(before, capped, key);
    DedupedKeys(before + capped, key);
    DistinctKeyCount(Deduped(before + capped, key), key);
    SubsetCardinality(Keys(capped, key), Keys(before + capped, key));
  }

  /** The cap on one source never loses a link: once it bites, the pigeonhole says the list is full. */
  lemma CapLosesNothing(before: seq<Tagged>, links: seq<Tagged>, limit: int, key: KeyFn)
    ensures Take(Deduped(before + Take(Deduped(links, key), limit), key), limit)
         == Take(Deduped(before + links, key), limit)
  {
    var d := Deduped(links, key);
    DedupeInner(before, links, key);
    if 0 < limit < |d| {
      DedupedKeys(links, key);
      CappedIsFull(before, d, limit, key);
      DedupedGrows(before + d[..limit], before + d, key);
    }
  }

  lemma {:induction false} AcceptedBack(links: seq<Tagged>, source: string)
    requires forall l | l in links :: l.source == source
    ensures Accepted(AsMatches(links), source) == links
  {
    if links != [] {
      var front := links[..|links| - 1];
      AcceptedBack(front, source);
      assert AsMatches(links)[..|front|] == AsMatches(front);
      assert links[|front|] in links;
    }
  }

  function AsMatches(links: seq<Tagged>): Matches {
    seq(|links|, i requires 0 <= i < |links| => Some(links[i].url))
  }

  lemma {:induction false} AcceptedSource(matches: Matches, source: string, key: KeyFn)
    ensures forall l | l in Accepted(matches, source) :: l.source == source
    ensures forall l | l in Deduped(Accepted(matches, source), key) :: l.source == source
  {
    if matches != [] {
      AcceptedSource(matches[..|matches| - 1], source, key);
    }
    DedupedIsFirstSeen(Accepted(matches, source), key);
  }

  /**
   `collect_links`: exactly the first `limit` links of all sources' links in order, each key once
   and tagged with the first, most trusted source that yields it.
   */
  method CollectLinks(sources: seq<(string, Matches)>, limit: int, key: KeyFn) returns (out: seq<Tagged>)
    ensures out == Take(Deduped(AllAccepted(sources), key), limit)
    ensures DistinctKeys(out, key) && forall l | l in out :: IsFirst(AllAccepted(sources), l, key)
  {
    out := [];
    for n := 0 to |sources|
      invariant Held(out, AllAccepted(sources[..n]), limit, key)
    {
      ghost var all := AllAccepted(sources[..n]);
      var (source, matches) := sources[n];
      assert sources[..n + 1][..n] == sources[..n];
      assert AllAccepted(sources[..n + 1]) == all + Accepted(matches, source);
      if |out| >= limit {
        FullStays(out, all, AllAccepted(sources[..n + 1]), limit, key);
        continue;
      }
      var found := ExtractLinks([(source, matches)], limit, key);
      var one := [(source, matches)];
      assert one[..0] == [] && AllAccepted(one) == [] + Accepted(matches, source) == Accepted(matches, source);
      AcceptedSource(matches, source, key);
      AcceptedBack(found, source);
      out := ScanText(out, all, AsMatches(found), source, limit, key);
      CapLosesNothing(all, Accepted(matches, source), limit, key);
    }
    assert sources[..|sources|] == sources;
    DedupedIsFirstSeen(AllAccepted(sources), key);
  }
}
