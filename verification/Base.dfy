/** Small shared vocabulary: optional values, Python's idea of blank text, and bounded listings. */
module Base {

  datatype Option<+T> = None | Some(value: T) {
    function GetOr(default: T): T {
      match this
      case Some(v) => v
      case None => default
    }
  }

  datatype Result<+T, +E> = Ok(value: T) | Err(error: E)

  /** Python truthiness of an optional string: `None` and `""` are both false. */
  predicate Present(text: Option<string>) {
    text.Some? && text.value != ""
  }

  /** The characters `str.strip()` removes. */
  predicate IsSpace(c: char) {
    || '\t' <= c <= '\r'
    || '\U{1c}' <= c <= ' '
    || c == '\U{85}' || c == '\U{a0}' || c == '\U{1680}'
    || '\U{2000}' <= c <= '\U{200a}'
    || c == '\U{2028}' || c == '\U{2029}' || c == '\U{202f}' || c == '\U{205f}' || c == '\U{3000}'
  }

  /** `not text.strip()` */
  predicate Blank(text: string) {
    forall i | 0 <= i < |text| :: IsSpace(text[i])
  }

  /** ASCII case folding of one character. */
  function Lower(c: char): char {
    if 'A' <= c <= 'Z' then (c as int + 32) as char else c
  }

  function LStrip(text: string): string {
    if text != "" && IsSpace(text[0]) then LStrip(text[1..]) else text
  }

  function RStrip(text: string): string {
    if text != "" && IsSpace(text[|text| - 1]) then RStrip(text[..|text| - 1]) else text
  }

  /** `text.strip()` */
  function Strip(text: string): string {
    RStrip(LStrip(text))
  }

  function Min(a: int, b: int): int {
    if a <= b then a else b
  }

  function Take<T>(xs: seq<T>, n: int): (r: seq<T>)
    ensures |r| <= |xs|
  {
    if n <= 0 then [] else if n < |xs| then xs[..n] else xs
  }

  ghost predicate Distinct<T>(xs: seq<T>) {
    forall i, j | 0 <= i < j < |xs| :: xs[i] != xs[j]
  }

  ghost predicate Increasing(places: seq<nat>) {
    forall m, n | 0 <= m < n < |places| :: places[m] < places[n]
  }

  /** A `LIMIT n` query over the rows `all`: that many different rows of it, or every one. */
  ghost predicate IsListing<T>(all: set<T>, limit: nat, rows: seq<T>) {
    && Distinct(rows)
    && (forall x | x in rows :: x in all)
    && |rows| == Min(limit, |all|)
  }

  lemma {:induction false} DistinctCardinality<T>(xs: seq<T>)
    requires Distinct(xs)
    ensures |set x | x in xs| == |xs|
  {
    if xs != [] {
      var last := xs[|xs| - 1];
      var front := xs[..|xs| - 1];
      DistinctCardinality(front);
      assert (set x | x in xs) == (set x | x in front) + {last};
    }
  }

  lemma SubsetCardinality<T>(a: set<T>, b: set<T>)
    requires a <= b
    ensures |a| <= |b|
    ensures |a| == |b| ==> a == b
  {
    assert b == a + (b - a);
  }

  lemma {:induction false} InjectionCardinality<S(!new), T(!new)>(a: set<S>, b: set<T>, f: S -> T)
    requires forall x | x in a :: f(x) in b
    requires forall x, y | x in a && y in a && f(x) == f(y) :: x == y
    ensures |a| <= |b|
  {
    if a != {} {
      var x :| x in a;
      InjectionCardinality(a - {x}, b - {f(x)}, f);
    }
  }

  /** The text between the white space at both ends. */
  ghost predicate IsStripped(text: string, s: string) {
    && (s != "" ==> !IsSpace(s[0]) && !IsSpace(s[|s| - 1]))
    && exists i, j :: 0 <= i <= j <= |text| && text[i..j] == s && Blank(text[..i]) && Blank(text[j..])
  }

  lemma {:induction false} LStripSkips(text: string) returns (i: nat)
    ensures i <= |text| && LStrip(text) == text[i..] && Blank(text[..i])
    ensures i < |text| ==> !IsSpace(text[i])
  {
    if text != "" && IsSpace(text[0]) {
      var n := LStripSkips(text[1..]);
      i := n + 1;
      assert text[1..][n..] == text[i..];
      assert forall k | 0 < k < i :: text[k] == text[1..][..n][k - 1];
    } else {
      i := 0;
    }
  }

  lemma {:induction false} RStripStops(text: string) returns (j: nat)
    ensures j <= |text| && RStrip(text) == text[..j] && Blank(text[j..])
    ensures j > 0 ==> !IsSpace(text[j - 1])
  {
    if text != "" && IsSpace(text[|text| - 1]) {
      var front := text[..|text| - 1];
      j := RStripStops(front);
      assert front[..j] == text[..j];
      assert forall k | j <= k < |front| :: text[k] == front[j..][k - j];
    } else {
      j := |text|;
    }
  }

  lemma StripStrips(text: string)
    ensures IsStripped(text, Strip(text))
    ensures Strip(text) == "" <==> Blank(text)
  {
    var i := LStripSkips(text);
    var j := RStripStops(text[i..]);
    assert text[i..][..j] == text[i..i + j] && text[i..][j..] == text[i + j..];
    assert forall k | 0 <= k < i :: text[k] == text[..i][k];
    assert forall k | i <= k < |text| :: text[k] == text[i..][k - i];
  }
}
