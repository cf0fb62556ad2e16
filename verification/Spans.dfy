/** Keeping only the highlights that really occur in the source, longest first and never overlapping. */
module Spans {
  import opened Base
  import opened Sorting

  const MIN_SPAN_CHARS: nat := 24
  const MAX_SPAN_CHARS: nat := 320
  const MAX_SPANS: nat := 5

  /** How a span is trimmed, and how text is normalised before matching; both are left abstract. */
  datatype Text = Text(clean: string -> string, normalize: string -> string)

  predicate OccursAt(haystack: string, needle: string, i: nat) {
    i + |needle| <= |haystack| && haystack[i..i + |needle|] == needle
  }

  /** `str.find`: the first occurrence. */
  function Find(haystack: string, needle: string, from: nat := 0): (r: Option<nat>)
    requires from <= |haystack|
    ensures r.Some? ==> from <= r.value && OccursAt(haystack, needle, r.value)
    ensures forall i | from <= i <= |haystack| && OccursAt(haystack, needle, i) :: r.Some? && r.value <= i
    decreases |haystack| - from
  {
    if OccursAt(haystack, needle, from) then Some(from)
    else if from == |haystack| then None
    else Find(haystack, needle, from + 1)
  }

  predicate InLength(s: string) {
    MIN_SPAN_CHARS <= |s| <= MAX_SPAN_CHARS
  }

  /** Where a trimmed span sits in the normalised source, if it occurs. */
  function Place(t: Text, haystack: string, s: string): Option<nat> {
    Find(haystack, t.normalize(s))
  }

  predicate Usable(t: Text, haystack: string, span: string) {
    InLength(t.clean(span)) && Place(t, haystack, t.clean(span)).Some?
  }

  predicate Overlaps(t: Text, haystack: string, a: string, b: string)
    requires Place(t, haystack, a).Some? && Place(t, haystack, b).Some?
  {
    var s, u := Place(t, haystack, a).value, Place(t, haystack, b).value;
    s < u + |t.normalize(b)| && u < s + |t.normalize(a)|
  }

  /** Character `x` of the source belongs to the span's place. */
  predicate Takes(t: Text, haystack: string, s: string, x: int) {
    var start := Find(haystack, t.normalize(s));
    start.Some? && start.value <= x < start.value + |t.normalize(s)|
  }

  /** Two spans overlap when their places share a character of the source. */
  lemma OverlapsIff(t: Text, haystack: string, a: string, b: string)
    requires Place(t, haystack, a).Some? && Place(t, haystack, b).Some?
    requires t.normalize(a) != "" && t.normalize(b) != ""
    ensures Overlaps(t, haystack, a, b) <==> exists x :: Takes(t, haystack, a, x) && Takes(t, haystack, b, x)
  {
    var s, u := Place(t, haystack, a).value, Place(t, haystack, b).value;
    if Overlaps(t, haystack, a, b) {
      var x := if s < u then u else s;
      assert Takes(t, haystack, a, x) && Takes(t, haystack, b, x);
    }
  }

  /** A span counts when it is 24 to 320 characters long once trimmed, and occurs once normalised. */
  lemma UsableIff(t: Text, haystack: string, span: string)
    ensures Usable(t, haystack, span) <==>
            && 24 <= |t.clean(span)| <= 320
            && exists i :: 0 <= i <= |haystack| && OccursAt(haystack, t.normalize(t.clean(span)), i)
  {
  }

  /** The spans stand in the order of the source, each ending before the next begins. */
  ghost predicate InSourceOrder(t: Text, haystack: string, out: seq<string>) {
    && (forall s | s in out :: Place(t, haystack, s).Some?)
    && forall i, j | 0 <= i < j < |out| :: StandsBefore(t, haystack, out[i], out[j])
  }

  predicate StandsBefore(t: Text, haystack: string, a: string, b: string)
    requires Place(t, haystack, a).Some? && Place(t, haystack, b).Some?
  {
    var p, q := Find(haystack, t.normalize(a)).value, Find(haystack, t.normalize(b)).value;
    p <= q && (p + |t.normalize(a)| <= q || t.normalize(b) == "")
  }

  lemma DisjointInOrder(t: Text, haystack: string, out: seq<string>)
    requires (forall s | s in out :: Place(t, haystack, s).Some?)
    requires Disjoint(t, haystack, out) && Sorted(out, Earlier(t, haystack))
    ensures InSourceOrder(t, haystack, out)
  {
    forall i, j | 0 <= i < j < |out|
      ensures StandsBefore(t, haystack, out[i], out[j])
    {
      assert Earlier(t, haystack)(out[i], out[j]) && !Overlaps(t, haystack, out[i], out[j]);
      assert out[i] in out && out[j] in out;
    }
  }

  function Longer(): (string, string) -> bool {
    (a: string, b: string) => |a| >= |b|
  }

  function Earlier(t: Text, haystack: string): (string, string) -> bool {
    (a: string, b: string) =>
      || Place(t, haystack, a).None?
      || (Place(t, haystack, b).Some? && Place(t, haystack, a).value <= Place(t, haystack, b).value)
  }

  /** Every kept span was proposed, is in length, and occurs. */
  ghost predicate AllVerbatim(t: Text, haystack: string, spans: seq<string>, kept: seq<string>) {
    forall s | s in kept ::
      Place(t, haystack, s).Some? && InLength(s) && exists span :: span in spans && s == t.clean(span)
  }

  ghost predicate Disjoint(t: Text, haystack: string, kept: seq<string>)
    requires forall s | s in kept :: Place(t, haystack, s).Some?
  {
    forall i, j | 0 <= i < j < |kept| :: !Overlaps(t, haystack, kept[i], kept[j])
  }

  /** A usable span was kept, or a kept span at least as long stands in its way. */
  ghost predicate Covered(t: Text, haystack: string, spans: seq<string>, kept: seq<string>, span: string)
    requires Usable(t, haystack, span) && forall s | s in kept :: Place(t, haystack, s).Some?
  {
    t.clean(span) in kept
    || exists rival ::
         && rival in spans && |rival| >= |span| && t.clean(rival) in kept
         && Overlaps(t, haystack, t.clean(rival), t.clean(span))
  }

  /** What the loop knows after `n` ranked spans. */
  ghost predicate Scanned(t: Text, haystack: string, ranked: seq<string>, n: nat, kept: seq<string>)
    requires n <= |ranked|
  {
    && AllVerbatim(t, haystack, ranked, kept) && Disjoint(t, haystack, kept)
    && (forall s | s in kept :: exists k :: 0 <= k < n && s == t.clean(ranked[k]))
    && (forall k | 0 <= k < n && Usable(t, haystack, ranked[k]) :: Covered(t, haystack, ranked, kept, ranked[k]))
  }

  lemma ScannedUnusable(t: Text, haystack: string, ranked: seq<string>, n: nat, kept: seq<string>)
    requires n < |ranked| && Scanned(t, haystack, ranked, n, kept) && !Usable(t, haystack, ranked[n])
    ensures Scanned(t, haystack, ranked, n + 1, kept)
  {
  }

  lemma ScannedBlocked(t: Text, haystack: string, ranked: seq<string>, n: nat, kept: seq<string>, s: string)
    requires Sorted(ranked, Longer()) && n < |ranked| && Scanned(t, haystack, ranked, n, kept)
    requires Usable(t, haystack, ranked[n]) && s in kept && Overlaps(t, haystack, s, t.clean(ranked[n]))
    ensures Scanned(t, haystack, ranked, n + 1, kept)
  {
    var k :| 0 <= k < n && s == t.clean(ranked[k]);
    assert Longer()(ranked[k], ranked[n]);
    assert ranked[k] in ranked;
    assert Covered(t, haystack, ranked, kept, ranked[n]);
  }

  lemma ScannedKept(t: Text, haystack: string, ranked: seq<string>, n: nat, kept: seq<string>)
    requires n < |ranked| && Scanned(t, haystack, ranked, n, kept) && Usable(t, haystack, ranked[n])
    requires forall s | s in kept :: !Overlaps(t, haystack, s, t.clean(ranked[n]))
    ensures Scanned(t, haystack, ranked, n + 1, kept + [t.clean(ranked[n])])
  {
    var more := kept + [t.clean(ranked[n])];
    assert ranked[n] in ranked;
    assert forall i | 0 <= i < |kept| :: kept[i] in kept;
    forall k | 0 <= k < n + 1 && Usable(t, haystack, ranked[k])
      ensures Covered(t, haystack, ranked, more, ranked[k])
    {
      if k == n {
        assert more[|kept|] in more;
      } else {
        CoveredStays(t, haystack, ranked, kept, more, ranked[k]);
      }
    }
  }

  lemma CoveredStays(t: Text, haystack: string, ranked: seq<string>, kept: seq<string>, more: seq<string>, span: string)
    requires Usable(t, haystack, span) && kept <= more && forall s | s in more :: Place(t, haystack, s).Some?
    requires (forall s | s in kept :: Place(t, haystack, s).Some?) && Covered(t, haystack, ranked, kept, span)
    ensures Covered(t, haystack, ranked, more, span)
  {
    assert forall s | s in kept :: s in more;
  }

  /** The loop of `keep_verbatim` over the ranked spans. */
  method KeepRanked(ranked: seq<string>, t: Text, haystack: string) returns (kept: seq<string>)
    requires Sorted(ranked, Longer())
    ensures |kept| <= MAX_SPANS && AllVerbatim(t, haystack, ranked, kept) && Disjoint(t, haystack, kept)
    ensures |kept| == MAX_SPANS || forall span | span in ranked && Usable(t, haystack, span) ::
            Covered(t, haystack, ranked, kept, span)
  {
    kept := [];
    for n := 0 to |ranked|
      invariant |kept| < MAX_SPANS && Scanned(t, haystack, ranked, n, kept)
    {
      var cleaned := t.clean(ranked[n]);
      if !InLength(cleaned) {
        ScannedUnusable(t, haystack, ranked, n, kept);
        continue;
      }
      var start := Find(haystack, t.normalize(cleaned));
      if start.None? {
        ScannedUnusable(t, haystack, ranked, n, kept);
        continue;
      }
      if exists s | s in kept :: Overlaps(t, haystack, s, cleaned) {
        ghost var s :| s in kept && Overlaps(t, haystack, s, cleaned);
        ScannedBlocked(t, haystack, ranked, n, kept, s);
        continue;
      }
      ScannedKept(t, haystack, ranked, n, kept);
      kept := kept + [cleaned];
      if |kept| >= MAX_SPANS {
        return;
      }
    }
  }

  /**
   `keep_verbatim`: at most five spans, each occurring in the source, pairwise disjoint and in
   source order.  Unless that many were kept, every other usable span overlaps a kept one no shorter.
   */
  method KeepVerbatim(spans: seq<string>, source: string, t: Text) returns (out: seq<string>)
    ensures var haystack := t.normalize(source);
            && |out| <= 5 && (haystack == "" ==> out == [])
            && AllVerbatim(t, haystack, spans, out) && Disjoint(t, haystack, out)
            && Sorted(out, Earlier(t, haystack)) && InSourceOrder(t, haystack, out)
            && (haystack != "" ==>
                  |out| == 5 || forall span | span in spans && Usable(t, haystack, span) ::
                      Covered(t, haystack, spans, out, span))
  {
    var haystack := t.normalize(source);
    if haystack == "" {
      return [];
    }
    var ranked := SortBy(spans, Longer());
    SortIsSorted(spans, Longer());
    var kept := KeepRanked(ranked, t, haystack);
    out := SortBy(kept, Earlier(t, haystack));
    SortIsSorted(kept, Earlier(t, haystack));
    SortKeepsDisjoint(t, haystack, kept);
    forall span | span in spans && Usable(t, haystack, span) && |kept| < MAX_SPANS
      ensures Covered(t, haystack, spans, out, span)
    {
      assert span in ranked;
      assert Covered(t, haystack, ranked, kept, span);
    }
    forall s | s in out
      ensures Place(t, haystack, s).Some? && InLength(s) && exists span :: span in spans && s == t.clean(span)
    {
      assert s in kept;
      var span :| span in ranked && s == t.clean(span);
      assert span in spans;
    }
    DisjointInOrder(t, haystack, out);
  }

  lemma {:induction false} SortKeepsDisjoint(t: Text, haystack: string, kept: seq<string>)
    requires (forall s | s in kept :: Place(t, haystack, s).Some?) && Disjoint(t, haystack, kept)
    ensures Disjoint(t, haystack, SortBy(kept, Earlier(t, haystack)))
  {
    if kept != [] {
      var front, last := kept[..|kept| - 1], kept[|kept| - 1];
      assert kept == front + [last];
      assert forall i | 0 <= i < |front| :: front[i] == kept[i];
      SortKeepsDisjoint(t, haystack, front);
      var sorted := SortBy(front, Earlier(t, haystack));
      forall s | s in sorted
        ensures !Overlaps(t, haystack, s, last)
      {
        assert s in front;
        var i :| 0 <= i < |front| && front[i] == s;
        assert !Overlaps(t, haystack, kept[i], kept[|front|]);
      }
      var k := InsertPosition(last, sorted, Earlier(t, haystack));
      InsertedDisjoint(t, haystack, last, sorted, k);
    }
  }

  lemma InsertedDisjoint(t: Text, haystack: string, x: string, xs: seq<string>, k: nat)
    requires k <= |xs| && Place(t, haystack, x).Some? && forall s | s in xs :: Place(t, haystack, s).Some?
    requires Disjoint(t, haystack, xs) && forall s | s in xs :: !Overlaps(t, haystack, s, x)
    ensures Disjoint(t, haystack, xs[..k] + [x] + xs[k..])
  {
    var all := xs[..k] + [x] + xs[k..];
    assert forall i | 0 <= i < |xs| :: xs[i] in xs;
    forall i, j | 0 <= i < j < |all|
      ensures !Overlaps(t, haystack, all[i], all[j])
    {
      var i', j' := if i < k then i else i - 1, if j < k then j else j - 1;
      if i == k {
        assert all[j] == xs[j'];
      } else if j == k {
        assert all[i] == xs[i'];
      } else {
        assert all[i] == xs[i'] && all[j] == xs[j'];
      }
    }
  }
}
