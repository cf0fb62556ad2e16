/**
 Python's `html` module as the editor uses it: `escape` in full, and of `unescape` only what holds
 whatever table of character references it knows.
 */
module HtmlText {
  import opened Base

  function EscapeChar(c: char, quote: bool): string {
    if c == '&' then "&amp;" else if c == '<' then "&lt;" else if c == '>' then "&gt;"
    else if quote && c == '"' then "&quot;" else if quote && c == '\'' then "&#x27;" else [c]
  }

  /** `html.escape` */
  function Escape(s: string, quote: bool): string {
    if s == "" then "" else EscapeChar(s[0], quote) + Escape(s[1..], quote)
  }

  /** What is known of `html.unescape`: numeric, named and unterminated references may all be read. */
  ghost predicate Unescapes(unescape: string -> string) {
    // Only an ampersand starts a reference.
    && (forall p: string, s: string | '&' !in p :: unescape(p + s) == p + unescape(s))
    // A reference is longer than what it stands for.
    && (forall s: string :: unescape(s) == s || |unescape(s)| < |s|)
    // It reads what `escape` writes, whatever follows.
    && (forall c: char, rest: string :: unescape(EscapeChar(c, false) + rest) == [c] + unescape(rest))
    // White space behind a string completes no reference.
    && (forall s: string, c: char | IsSpace(c) :: unescape(s + [c]) == unescape(s) + [c])
  }

  lemma Associative(x: string, y: string, z: string)
    ensures (x + y) + z == x + (y + z)
  {
  }

  lemma UnescapeKeepsPrefix(p: string, s: string, unescape: string -> string)
    requires Unescapes(unescape) && '&' !in p
    ensures unescape(p + s) == p + unescape(s)
  {
  }

  lemma {:induction false} UnescapeUndoesEscape(s: string, rest: string, unescape: string -> string)
    requires Unescapes(unescape)
    ensures unescape(Escape(s, false) + rest) == s + unescape(rest)
  {
    if s == "" {
      assert Escape(s, false) + rest == rest;
    } else {
      UnescapeUndoesEscape(s[1..], rest, unescape);
      Associative(EscapeChar(s[0], false), Escape(s[1..], false), rest);
      Associative([s[0]], s[1..], unescape(rest));
      assert s == [s[0]] + s[1..];
    }
  }

  lemma EmptyHoldsNoReference(unescape: string -> string)
    requires Unescapes(unescape)
    ensures unescape("") == ""
  {
  }

  // ---- the least of such readers ----

  /** The references `html.escape` writes. */
  function Reference(s: string): (r: Option<(char, nat)>)
    ensures r.Some? ==> 0 < r.value.1 <= |s|
  {
    if "&amp;" <= s then Some(('&', 5))
    else if "&lt;" <= s then Some(('<', 4))
    else if "&gt;" <= s then Some(('>', 4))
    else if "&quot;" <= s then Some(('"', 6))
    else if "&#x27;" <= s then Some(('\'', 6))
    else None
  }

  /** One left-to-right pass that reads those references and no other. */
  function LeastUnescape(s: string): string {
    if s == "" then ""
    else match Reference(s)
      case Some((c, n)) => [c] + LeastUnescape(s[n..])
      case None => [s[0]] + LeastUnescape(s[1..])
  }

  lemma LeastKeepsChar(c: char, s: string)
    requires c != '&'
    ensures LeastUnescape([c] + s) == [c] + LeastUnescape(s)
  {
    assert ([c] + s)[0] == c && ([c] + s)[1..] == s;
    assert Reference([c] + s).None?;
  }

  lemma {:induction false} LeastKeepsPrefix(p: string, s: string)
    requires '&' !in p
    ensures LeastUnescape(p + s) == p + LeastUnescape(s)
  {
    if p == "" {
      assert p + s == s;
    } else {
      var c, rest := p[0], p[1..];
      LeastKeepsPrefix(rest, s);
      LeastKeepsChar(c, rest + s);
      Associative([c], rest, s);
      Associative([c], rest, LeastUnescape(s));
      assert [c] + rest == p;
    }
  }

  lemma {:induction false} LeastShrinks(s: string)
    ensures LeastUnescape(s) == s || |LeastUnescape(s)| < |s|
  {
    if s != "" {
      match Reference(s)
      case Some((c, n)) => LeastShrinks(s[n..]);
      case None => LeastShrinks(s[1..]);
    }
  }

  lemma LeastReadsOne(c: char, tail: string)
    ensures LeastUnescape(EscapeChar(c, false) + tail) == [c] + LeastUnescape(tail)
  {
    var s := EscapeChar(c, false) + tail;
    if c == '&' {
      ReferenceAt(s, tail, "&amp;", '&');
    } else if c == '<' {
      ReferenceAt(s, tail, "&lt;", '<');
    } else if c == '>' {
      ReferenceAt(s, tail, "&gt;", '>');
    } else {
      assert s[0] == c && s[1..] == tail;
    }
  }

  lemma ReferenceAt(s: string, tail: string, name: string, c: char)
    requires s == name + tail
    requires (name == "&amp;" && c == '&') || (name == "&lt;" && c == '<') || (name == "&gt;" && c == '>')
    ensures LeastUnescape(s) == [c] + LeastUnescape(tail)
  {
    assert s[1] == name[1];
    assert name <= s && s[|name|..] == tail;
    assert Reference(s) == Some((c, |name|));
  }

  lemma PrefixExtends(name: string, s: string, c: char)
    requires c !in name
    ensures name <= s + [c] <==> name <= s
  {
    assert forall i | 0 <= i < |name| :: name[i] in name;
    assert (s + [c])[|s|] == c;
  }

  lemma ReferenceExtends(s: string, c: char)
    requires IsSpace(c)
    ensures Reference(s + [c]) == Reference(s)
  {
    PrefixExtends("&amp;", s, c);
    PrefixExtends("&lt;", s, c);
    PrefixExtends("&gt;", s, c);
    PrefixExtends("&quot;", s, c);
    PrefixExtends("&#x27;", s, c);
  }

  lemma LeastReads(s: string, c: char, n: nat)
    requires Reference(s) == Some((c, n))
    ensures n <= |s| && LeastUnescape(s) == [c] + LeastUnescape(s[n..])
  {
  }

  lemma LeastSkips(s: string)
    requires s != "" && Reference(s).None?
    ensures LeastUnescape(s) == [s[0]] + LeastUnescape(s[1..])
  {
  }

  lemma LeastOfSpace(c: char)
    requires IsSpace(c)
    ensures LeastUnescape([c]) == [c]
  {
    LeastKeepsChar(c, "");
    assert [c] + "" == [c];
  }

  lemma {:induction false} LeastTrailing(s: string, c: char)
    requires IsSpace(c)
    ensures LeastUnescape(s + [c]) == LeastUnescape(s) + [c]
    decreases |s|
  {
    if s == "" {
      assert "" + [c] == [c];
      LeastOfSpace(c);
    } else {
      ReferenceExtends(s, c);
      match Reference(s)
      case Some((d, n)) =>
        LeastReads(s, d, n);
        LeastReads(s + [c], d, n);
        assert (s + [c])[n..] == s[n..] + [c];
        LeastTrailing(s[n..], c);
        Associative([d], LeastUnescape(s[n..]), [c]);
      case None =>
        LeastSkips(s);
        LeastSkips(s + [c]);
        assert (s + [c])[0] == s[0] && (s + [c])[1..] == s[1..] + [c];
        LeastTrailing(s[1..], c);
        Associative([s[0]], LeastUnescape(s[1..]), [c]);
    }
  }

  lemma {:induction false} QuotedIsInert(s: string)
    ensures '"' !in Escape(s, true) && '\'' !in Escape(s, true) && '<' !in Escape(s, true) && '>' !in Escape(s, true)
  {
    if s != "" {
      QuotedIsInert(s[1..]);
      var e := EscapeChar(s[0], true);
      assert '"' !in e && '\'' !in e && '<' !in e && '>' !in e;
    }
  }

  lemma QuoteAt(name: string, tail: string, c: char)
    requires (name == "&quot;" && c == '"') || (name == "&#x27;" && c == '\'')
    ensures LeastUnescape(name + tail) == [c] + LeastUnescape(tail)
  {
    var s := name + tail;
    assert s[1] == name[1];
    assert name <= s && s[|name|..] == tail;
    LeastReads(s, c, |name|);
  }

  lemma QuotedReadsOne(c: char, tail: string)
    ensures LeastUnescape(EscapeChar(c, true) + tail) == [c] + LeastUnescape(tail)
  {
    var e := EscapeChar(c, true);
    if c == '"' || c == '\'' {
      QuoteAt(e, tail, c);
    } else {
      assert e == EscapeChar(c, false);
      LeastReadsOne(c, tail);
    }
  }

  lemma {:induction false} QuotedReadsBack(s: string, rest: string)
    ensures LeastUnescape(Escape(s, true) + rest) == s + LeastUnescape(rest)
  {
    if s == "" {
      assert Escape(s, true) + rest == rest;
    } else {
      var c, tail := s[0], Escape(s[1..], true) + rest;
      QuotedReadsBack(s[1..], rest);
      QuotedReadsOne(c, tail);
      Associative(EscapeChar(c, true), Escape(s[1..], true), rest);
      Associative([c], s[1..], LeastUnescape(rest));
      assert s == [c] + s[1..];
    }
  }

  /** With quotes escaped as well, a string fits between two quotes and is read back whole. */
  lemma EscapedAttribute(s: string, rest: string)
    ensures '"' !in Escape(s, true) && '\'' !in Escape(s, true) && '<' !in Escape(s, true) && '>' !in Escape(s, true)
    ensures LeastUnescape(Escape(s, true) + rest) == s + LeastUnescape(rest)
  {
    QuotedIsInert(s);
    QuotedReadsBack(s, rest);
  }

  /** What is asked of `html.unescape` can be had. */
  lemma LeastUnescapeUnescapes()
    ensures Unescapes(LeastUnescape)
  {
    forall p: string, s: string | '&' !in p
      ensures LeastUnescape(p + s) == p + LeastUnescape(s)
    {
      LeastKeepsPrefix(p, s);
    }
    forall s: string
      ensures LeastUnescape(s) == s || |LeastUnescape(s)| < |s|
    {
      LeastShrinks(s);
    }
    forall c: char, rest: string
      ensures LeastUnescape(EscapeChar(c, false) + rest) == [c] + LeastUnescape(rest)
    {
      LeastReadsOne(c, rest);
    }
    forall s: string, c: char | IsSpace(c)
      ensures LeastUnescape(s + [c]) == LeastUnescape(s) + [c]
    {
      LeastTrailing(s, c);
    }
  }
}
