/** Printing the sanitized tokens, and projecting the printed string back to flat text. */
module EditorText {
  import opened Base
  import opened HtmlText
  import opened Sanitizer

  const MAX_BLOCK_CHARS: nat := 20000
  const MAX_RAW_CHARS: nat := MAX_BLOCK_CHARS * 4

  // ---- printing ----

  function Name(tag: Tag): string {
    match tag
    case BTag => "b"
    case ITag => "i"
    case UTag => "u"
    case MarkTag => "mark"
    case CodeTag => "code"
    case ATag => "a"
    case BrTag => "br"
    case StrongTag => "strong"
    case EmTag => "em"
    case InsTag => "ins"
    case BlockTag(name) => name
    case OtherTag(name) => name
  }

  function Printed(t: Token): string {
    match t
    case Text(text) => Escape(text, false)
    case Break => "<br>"
    case Close(tag) => "</" + Name(tag) + ">"
    case Open(tag, href) =>
      if href.Some? then "<a href=\"" + Escape(href.value, true) + "\">" else "<" + Name(tag) + ">"
  }

  function Render(tokens: seq<Token>): string {
    if tokens == [] then "" else Printed(tokens[0]) + Render(tokens[1..])
  }

  // ---- projecting ----

  function SpacesAt(s: string, k: nat): (n: nat)
    requires k <= |s|
    ensures k <= n <= |s|
    decreases |s| - k
  {
    if k < |s| && IsSpace(s[k]) then SpacesAt(s, k + 1) else k
  }

  /** The length of a `<br\s*\/?>` at the head of the string, or 0. */
  function BreakAt(s: string): (n: nat)
    ensures n <= |s|
  {
    if |s| < 4 || s[0] != '<' || Lower(s[1]) != 'b' || Lower(s[2]) != 'r' then 0
    else
      var k := SpacesAt(s, 3);
      var k' := if k < |s| && s[k] == '/' then k + 1 else k;
      if k' < |s| && s[k'] == '>' then k' + 1 else 0
  }

  function BreaksToNewlines(s: string): string
    decreases |s|
  {
    if s == "" then ""
    else if BreakAt(s) > 0 then "\n" + BreaksToNewlines(s[BreakAt(s)..])
    else [s[0]] + BreaksToNewlines(s[1..])
  }

  function IndexOf(s: string, c: char): (n: nat)
    ensures n <= |s| && (n < |s| ==> s[n] == c) && forall i | 0 <= i < n :: s[i] != c
  {
    if s == "" || s[0] == c then 0 else 1 + IndexOf(s[1..], c)
  }

  /** Removes every `<[^>]*>`. */
  function StripTags(s: string): string
    decreases |s|
  {
    if s == "" then ""
    else if s[0] == '<' && IndexOf(s, '>') < |s| then StripTags(s[IndexOf(s, '>') + 1..])
    else [s[0]] + StripTags(s[1..])
  }

  predicate IsBlankChar(c: char) {
    c == ' ' || c == '\t'
  }

  /** Removes `[ \t]+` before each line end. */
  function TrimLineEnds(s: string): string {
    if s == "" then ""
    else
      var rest := TrimLineEnds(s[1..]);
      if IsBlankChar(s[0]) && (rest == "" || rest[0] == '\n') then rest else [s[0]] + rest
  }

  function Project(s: string, unescape: string -> string): string {
    unescape(StripTags(BreaksToNewlines(s)))
  }

  /** `to_plain` */
  function ToPlain(rich: string, html: Html): string {
    Strip(TrimLineEnds(Project(rich, html.unescape)))
  }

  function NbspToSpace(s: string): (r: string)
    ensures |r| == |s|
  {
    seq(|s|, i requires 0 <= i < |s| => if s[i] == '\U{a0}' then ' ' else s[i])
  }

  /** The parser, of which nothing is assumed, and `html.unescape`. */
  datatype Html = Html(parse: string -> seq<Event>, unescape: string -> string)

  /** `to_rich` */
  function ToRich(value: string, html: Html): string {
    if Blank(value) then ""
    else Strip(NbspToSpace(Render(Sanitized(html.parse(Take(value, MAX_RAW_CHARS)), html.unescape))))
  }

  /** `<br`, in either case, white space, an optional slash at place `m`, and `>`. */
  predicate IsBreak(s: string, m: int, n: int) {
    && 3 <= m < n <= |s| && s[0] == '<' && s[1] in {'b', 'B'} && s[2] in {'r', 'R'} && s[n - 1] == '>'
    && (forall i | 3 <= i < m :: IsSpace(s[i])) && (m == n - 1 || (m == n - 2 && s[m] == '/'))
  }

  lemma {:induction false} SpacesSkipped(s: string, k: nat)
    requires k <= |s|
    ensures var n := SpacesAt(s, k); (forall i | k <= i < n :: IsSpace(s[i])) && (n < |s| ==> !IsSpace(s[n]))
    decreases |s| - k
  {
    if k < |s| && IsSpace(s[k]) {
      SpacesSkipped(s, k + 1);
    }
  }

  /** A break is found exactly where one stands, and whole. */
  lemma BreakIs(s: string)
    ensures BreakAt(s) > 0 <==> exists m, n :: IsBreak(s, m, n)
    ensures forall m, n | IsBreak(s, m, n) :: BreakAt(s) == n
  {
    if |s| >= 4 {
      SpacesSkipped(s, 3);
      var k := SpacesAt(s, 3);
      if BreakAt(s) > 0 {
        assert IsBreak(s, k, BreakAt(s));
      }
      forall m, n | IsBreak(s, m, n)
        ensures m == k
      {
        if m < k {
          assert false;
        }
      }
    }
  }

  /** The markup of one token. */
  lemma PrintedIs(t: Token)
    requires (t.Open? || t.Close?) ==> Paired(t.tag)
    ensures match t
            case Text(text) => Printed(t) == Escape(text, false)
            case Break => Printed(t) == "<br>"
            case Close(tag) =>
              Printed(t) == (match tag
                             case BTag => "</b>" case ITag => "</i>" case UTag => "</u>"
                             case MarkTag => "</mark>" case CodeTag => "</code>" case _ => "</a>")
            case Open(tag, Some(target)) => Printed(t) == "<a href=\"" + Escape(target, true) + "\">"
            case Open(tag, None) =>
              Printed(t) == (match tag
                             case BTag => "<b>" case ITag => "<i>" case UTag => "<u>"
                             case MarkTag => "<mark>" case CodeTag => "<code>" case _ => "<a>")
  {
  }

  /** The tokens' markup, one after another. */
  lemma {:induction false} RenderIs(tokens: seq<Token>, t: Token)
    ensures Render([]) == "" && Render(tokens + [t]) == Render(tokens) + Printed(t)
  {
    var all := tokens + [t];
    if tokens == [] {
      assert all == [t] && all[1..] == [];
      assert Render(all) == Printed(t) + Render([]);
    } else {
      var first, rest := tokens[0], tokens[1..];
      RenderIs(rest, t);
      assert all[0] == first && all[1..] == rest + [t];
      Associative(Printed(first), Render(rest), Printed(t));
    }
  }

  lemma {:induction false} TrimsEachLine(a: string, b: string)
    ensures TrimLineEnds(a + "\n" + b) == TrimLineEnds(a) + "\n" + TrimLineEnds(b)
  {
    if a == "" {
      assert ("" + "\n" + b)[1..] == b && TrimLineEnds("\n" + b) == "\n" + TrimLineEnds(b);
      assert "" + "\n" + b == "\n" + b;
    } else {
      TrimsEachLine(a[1..], b);
      assert (a + "\n" + b)[0] == a[0] && (a + "\n" + b)[1..] == a[1..] + "\n" + b;
      var rest := TrimLineEnds(a[1..]);
      assert (rest + "\n" + TrimLineEnds(b))[0] == if rest == "" then '\n' else rest[0];
    }
  }

  /** Within one line, exactly the blanks and tabs at its end go. */
  lemma {:induction false} TrimsLine(a: string) returns (k: nat)
    requires '\n' !in a
    ensures k <= |a| && TrimLineEnds(a) == a[..k] && (forall i | k <= i < |a| :: a[i] == ' ' || a[i] == '\t')
    ensures k > 0 ==> a[k - 1] != ' ' && a[k - 1] != '\t'
  {
    if a == "" {
      k := 0;
    } else {
      var n := TrimsLine(a[1..]);
      assert n > 0 ==> TrimLineEnds(a[1..])[0] == a[1];
      k := if IsBlankChar(a[0]) && n == 0 then 0 else n + 1;
      assert forall i | 0 < i < |a| :: a[i] == a[1..][i - 1];
    }
  }

  lemma NbspIsSpace(s: string, i: nat)
    requires i < |s|
    ensures NbspToSpace(s)[i] == if s[i] == '\U{a0}' then ' ' else s[i]
  {
  }

  // ---- the text of the input ----

  function TextOfEvent(e: Event): string {
    match e
    case Data(text) => text
    case StartTag(tag, _) => if Normalize(tag).BrTag? then "\n" else ""
    case StartEndTag(tag) => if Normalize(tag).BrTag? then "\n" else ""
    case EndTag(tag) => if Normalize(tag).BlockTag? then "\n" else ""
  }

  /** All the data the parser reported, with a newline for every break. */
  function TextOfEvents(events: seq<Event>): string {
    if events == [] then "" else TextOfEvents(events[..|events| - 1]) + TextOfEvent(events[|events| - 1])
  }

  function TextOfToken(t: Token): string {
    match t
    case Text(text) => text
    case Break => "\n"
    case _ => ""
  }

  function TextOfTokens(tokens: seq<Token>): string {
    if tokens == [] then "" else TextOfTokens(tokens[..|tokens| - 1]) + TextOfToken(tokens[|tokens| - 1])
  }

  lemma TextOfOneMore(tokens: seq<Token>, t: Token)
    ensures TextOfTokens(tokens + [t]) == TextOfTokens(tokens) + TextOfToken(t)
  {
    assert (tokens + [t])[..|tokens|] == tokens;
  }

  lemma {:induction false} TextOfAppended(a: seq<Token>, b: seq<Token>)
    ensures TextOfTokens(a + b) == TextOfTokens(a) + TextOfTokens(b)
  {
    if b == [] {
      assert a + b == a;
    } else {
      var front, t := b[..|b| - 1], b[|b| - 1];
      TextOfAppended(a, front);
      AppendedOneMore(a, front, t);
      assert b == front + [t];
    }
  }

  lemma AppendedOneMore(a: seq<Token>, front: seq<Token>, t: Token)
    requires TextOfTokens(a + front) == TextOfTokens(a) + TextOfTokens(front)
    ensures TextOfTokens(a + (front + [t])) == TextOfTokens(a) + TextOfTokens(front + [t])
  {
    var x, y, z := TextOfTokens(a), TextOfTokens(front), TextOfToken(t);
    assert a + (front + [t]) == (a + front) + [t];
    TextOfOneMore(a + front, t);
    TextOfOneMore(front, t);
    Associative(x, y, z);
  }

  lemma {:induction false} ClosingHasNoText(open: seq<Tag>, k: nat)
    requires k <= |open|
    ensures TextOfTokens(Closing(open, k)) == ""
    decreases |open|
  {
    if |open| > k {
      var close := Close(open[|open| - 1]);
      ClosingHasNoText(open[..|open| - 1], k);
      TextOfAppended([close], Closing(open[..|open| - 1], k));
      TextOfOneMore([], close);
      assert [] + [close] == [close];
    }
  }

  lemma OneTokenKeepsText(m: Machine, e: Event, t: Token, unescape: string -> string)
    requires Handled(m, e, unescape).out == m.out + [t] && TextOfToken(t) == TextOfEvent(e)
    ensures TextOfTokens(Handled(m, e, unescape).out) == TextOfTokens(m.out) + TextOfEvent(e)
  {
    TextOfOneMore(m.out, t);
  }

  lemma StartTagKeepsText(m: Machine, raw: Tag, href: Option<string>, unescape: string -> string)
    ensures var e := StartTag(raw, href);
            TextOfTokens(Handled(m, e, unescape).out) == TextOfTokens(m.out) + TextOfEvent(e)
  {
    var tag := Normalize(raw);
    if tag.BrTag? {
      OneTokenKeepsText(m, StartTag(raw, href), Break, unescape);
    } else if Paired(tag) && |m.open| < MAX_INLINE_NESTING && (tag.ATag? ==> SafeHref(href, unescape).Some?) {
      var t := Open(tag, if tag.ATag? then SafeHref(href, unescape) else None);
      OneTokenKeepsText(m, StartTag(raw, href), t, unescape);
    }
  }

  lemma EndTagKeepsText(m: Machine, raw: Tag, unescape: string -> string)
    ensures TextOfTokens(Handled(m, EndTag(raw), unescape).out) == TextOfTokens(m.out) + TextOfEvent(EndTag(raw))
  {
    var tag := Normalize(raw);
    if tag.BlockTag? {
      OneTokenKeepsText(m, EndTag(raw), Break, unescape);
    } else if !tag.BrTag? && tag in m.open {
      var k := LastOpen(m.open, tag);
      ClosingHasNoText(m.open, k);
      TextOfAppended(m.out, Closing(m.open, k));
    }
  }

  lemma HandledKeepsText(m: Machine, e: Event, unescape: string -> string)
    ensures TextOfTokens(Handled(m, e, unescape).out) == TextOfTokens(m.out) + TextOfEvent(e)
  {
    match e
    case Data(text) => OneTokenKeepsText(m, e, Text(text), unescape);
    case StartTag(raw, href) => StartTagKeepsText(m, raw, href, unescape);
    case EndTag(raw) => EndTagKeepsText(m, raw, unescape);
    case StartEndTag(raw) =>
      if Normalize(raw).BrTag? {
        OneTokenKeepsText(m, e, Break, unescape);
      }
  }

  lemma {:induction false} FedKeepsText(events: seq<Event>, unescape: string -> string)
    ensures TextOfTokens(Fed(events, unescape).out) == TextOfEvents(events)
  {
    if events != [] {
      FedKeepsText(events[..|events| - 1], unescape);
      HandledKeepsText(Fed(events[..|events| - 1], unescape), events[|events| - 1], unescape);
    }
  }

  /** The sanitizer drops tags, never text. */
  lemma SanitizedKeepsText(events: seq<Event>, unescape: string -> string)
    ensures TextOfTokens(Sanitized(events, unescape)) == TextOfEvents(events)
  {
    FedKeepsText(events, unescape);
    ClosingHasNoText(Fed(events, unescape).open, 0);
    TextOfAppended(Fed(events, unescape).out, Closing(Fed(events, unescape).open, 0));
  }

  // ---- the projection undoes the printer ----

  lemma {:induction false} EscapedIsInert(s: string, quote: bool)
    ensures '<' !in Escape(s, quote) && '>' !in Escape(s, quote)
  {
    if s != "" {
      EscapedIsInert(s[1..], quote);
      assert '<' !in EscapeChar(s[0], quote) && '>' !in EscapeChar(s[0], quote);
    }
  }

  lemma {:induction false} BreaksSkip(p: string, s: string)
    requires '<' !in p
    ensures BreaksToNewlines(p + s) == p + BreaksToNewlines(s)
  {
    if p == "" {
      assert p + s == s;
    } else {
      assert (p + s)[0] == p[0] && (p + s)[1..] == p[1..] + s;
      BreaksSkip(p[1..], s);
    }
  }

  lemma {:induction false} TagsSkip(p: string, s: string)
    requires '<' !in p
    ensures StripTags(p + s) == p + StripTags(s)
  {
    if p == "" {
      assert p + s == s;
    } else {
      assert (p + s)[0] == p[0] && (p + s)[1..] == p[1..] + s;
      TagsSkip(p[1..], s);
    }
  }

  /** A printed tag: one `<`, one `>` at its end, and a name that starts no break. */
  ghost predicate IsTagText(p: string, body: string) {
    && p == "<" + body && |body| >= 2 && '<' !in body
    && body[|body| - 1] == '>' && (forall i | 0 <= i < |body| - 1 :: body[i] != '>')
    && !(Lower(body[0]) == 'b' && Lower(body[1]) == 'r')
  }

  lemma TagTextScans(p: string, body: string, rest: string)
    requires IsTagText(p, body)
    ensures BreaksToNewlines(p + rest) == p + BreaksToNewlines(rest)
    ensures StripTags(p + rest) == StripTags(rest)
  {
    var s := p + rest;
    assert s[0] == '<' && s[1..] == body + rest;
    assert s[1] == body[0] && s[2] == body[1];
    assert BreakAt(s) == 0;
    BreaksSkip(body, rest);
    assert [s[0]] + (body + BreaksToNewlines(rest)) == p + BreaksToNewlines(rest);
    assert s[|body|] == '>' && forall i | 0 < i < |body| :: s[i] == body[i - 1];
    FirstIndex(s, '>', |body|);
    assert s[|body| + 1..] == rest;
  }

  lemma FirstIndex(s: string, c: char, n: nat)
    requires n < |s| && s[n] == c && forall i | 0 <= i < n :: s[i] != c
    ensures IndexOf(s, c) == n
  {
  }

  lemma PrintedIsTagText(t: Token) returns (body: string)
    requires t.Open? || t.Close?
    requires Paired(t.tag)
    ensures IsTagText(Printed(t), body)
  {
    if t.Close? {
      body := ClosingText(t.tag);
    } else if t.href.None? {
      body := OpeningText(t.tag);
    } else {
      body := LinkText(Escape(t.href.value, true));
      EscapedIsInert(t.href.value, true);
      LinkIsTagText(Escape(t.href.value, true));
    }
  }

  lemma ClosingText(tag: Tag) returns (body: string)
    requires Paired(tag)
    ensures IsTagText("</" + Name(tag) + ">", body)
  {
    body := "/" + Name(tag) + ">";
    assert "</" + Name(tag) + ">" == "<" + body;
  }

  lemma OpeningText(tag: Tag) returns (body: string)
    requires Paired(tag)
    ensures IsTagText("<" + Name(tag) + ">", body)
  {
    body := Name(tag) + ">";
    assert "<" + Name(tag) + ">" == "<" + body;
  }

  function LinkText(target: string): string {
    "a href=\"" + target + "\">"
  }

  lemma LinkIsTagText(target: string)
    requires '<' !in target && '>' !in target
    ensures IsTagText("<a href=\"" + target + "\">", LinkText(target))
  {
    var body := LinkText(target);
    assert "<a href=\"" + target + "\">" == "<" + body;
    var head := "a href=\"";
    assert body == head + target + "\">";
    assert '<' !in head && '>' !in head;
    forall i | 0 <= i < |body| - 1
      ensures body[i] != '>' && body[i] != '<'
    {
      if i < |head| {
        assert body[i] == head[i];
      } else if i < |head| + |target| {
        assert body[i] == target[i - |head|];
      } else {
        assert body[i] == '"';
      }
    }
  }

  lemma PrintedTag(t: Token, rest: string)
    requires t.Open? || t.Close?
    requires Paired(t.tag)
    ensures BreaksToNewlines(Printed(t) + rest) == Printed(t) + BreaksToNewlines(rest)
    ensures StripTags(Printed(t) + rest) == StripTags(rest)
  {
    var body := PrintedIsTagText(t);
    TagTextScans(Printed(t), body, rest);
  }

  predicate KnownTags(tokens: seq<Token>) {
    forall t | t in tokens && (t.Open? || t.Close?) :: Paired(t.tag)
  }

  /** What both tag scans leave of one token. */
  function ScannedText(t: Token): string {
    if t.Text? then Escape(t.text, false) else if t.Break? then "\n" else ""
  }

  /** The printed string after each of the two tag scans. */
  function RenderText(tokens: seq<Token>): string {
    if tokens == [] then ""
    else ScannedText(tokens[0]) + RenderText(tokens[1..])
  }

  function RenderNewlines(tokens: seq<Token>): string {
    if tokens == [] then ""
    else (if tokens[0].Break? then "\n" else Printed(tokens[0])) + RenderNewlines(tokens[1..])
  }

  lemma {:induction false} BreaksOfRender(tokens: seq<Token>)
    requires KnownTags(tokens)
    ensures BreaksToNewlines(Render(tokens)) == RenderNewlines(tokens)
  {
    if tokens != [] {
      var t, rest := tokens[0], Render(tokens[1..]);
      BreaksOfRender(tokens[1..]);
      match t
      case Text(text) =>
        EscapedIsInert(text, false);
        BreaksSkip(Escape(text, false), rest);
      case Break =>
        var s := "<br>" + rest;
        assert s[..4] == "<br>" && s[4..] == rest;
        assert BreakAt(s) == 4;
      case _ => PrintedTag(t, rest);
    }
  }

  lemma {:induction false} TagsOfRender(tokens: seq<Token>)
    requires KnownTags(tokens)
    ensures StripTags(RenderNewlines(tokens)) == RenderText(tokens)
  {
    if tokens != [] {
      var t, rest := tokens[0], RenderNewlines(tokens[1..]);
      TagsOfRender(tokens[1..]);
      match t
      case Text(text) =>
        EscapedIsInert(text, false);
        TagsSkip(Escape(text, false), rest);
      case Break => TagsSkip("\n", rest);
      case _ => PrintedTag(t, rest);
    }
  }

  lemma {:induction false} UnescapeOfRender(tokens: seq<Token>, unescape: string -> string)
    requires Unescapes(unescape)
    ensures unescape(RenderText(tokens)) == TextOfTokens(tokens)
  {
    EmptyHoldsNoReference(unescape);
    if tokens != [] {
      var t, rest := tokens[0], tokens[1..];
      UnescapeOfRender(rest, unescape);
      assert tokens == [t] + rest;
      TextOfAppended([t], rest);
      TextOfOneMore([], t);
      assert [] + [t] == [t] && TextOfTokens([t]) == TextOfToken(t);
      UnescapeOfOne(t, RenderText(rest), unescape);
    }
  }

  lemma UnescapeOfOne(t: Token, rest: string, unescape: string -> string)
    requires Unescapes(unescape)
    ensures unescape(ScannedText(t) + rest) == TextOfToken(t) + unescape(rest)
  {
    match t
    case Text(text) => UnescapeUndoesEscape(text, rest, unescape);
    case Break => UnescapeKeepsPrefix("\n", rest, unescape);
    case _ => assert "" + rest == rest;
  }

  /** Replacing breaks, stripping tags and unescaping the printed tokens gives back exactly their text. */
  lemma ProjectUndoesRender(tokens: seq<Token>, unescape: string -> string)
    requires Unescapes(unescape) && KnownTags(tokens)
    ensures Project(Render(tokens), unescape) == TextOfTokens(tokens)
  {
    BreaksOfRender(tokens);
    TagsOfRender(tokens);
    UnescapeOfRender(tokens, unescape);
  }

  lemma {:induction false} RichTagsAreKnown(tokens: seq<Token>)
    requires Nesting(tokens).Some?
    ensures KnownTags(tokens)
  {
    if tokens != [] {
      var front, t := tokens[..|tokens| - 1], tokens[|tokens| - 1];
      RichTagsAreKnown(front);
      OpenTagsArePaired(front);
      assert tokens == front + [t];
    }
  }

  /** Text survives: for every event sequence the rendered string projects to the concatenated input text. */
  lemma TextSurvives(events: seq<Event>, unescape: string -> string)
    requires Unescapes(unescape)
    ensures Project(Render(Sanitized(events, unescape)), unescape) == TextOfEvents(events)
  {
    SanitizedIsRich(events, unescape);
    RichTagsAreKnown(Sanitized(events, unescape));
    ProjectUndoesRender(Sanitized(events, unescape), unescape);
    SanitizedKeepsText(events, unescape);
  }
}
