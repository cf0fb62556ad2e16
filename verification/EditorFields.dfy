/** One editor field end to end: what `to_plain` says of what `to_rich` stored, and where the length cap breaks it. */
module EditorFields {
  import opened Base
  import opened HtmlText
  import opened Sanitizer
  import opened EditorText

  // ---- nbsp is a space ----

  function NbspToken(t: Token): Token {
    match t
    case Text(text) => Text(NbspToSpace(text))
    case Open(tag, href) => if href.Some? then Open(tag, Some(NbspToSpace(href.value))) else t
    case _ => t
  }

  function NbspTokens(tokens: seq<Token>): (r: seq<Token>)
    ensures |r| == |tokens|
  {
    seq(|tokens|, i requires 0 <= i < |tokens| => NbspToken(tokens[i]))
  }

  lemma NbspOfConcat(a: string, b: string)
    ensures NbspToSpace(a + b) == NbspToSpace(a) + NbspToSpace(b)
  {
  }

  lemma NbspFree(s: string)
    requires '\U{a0}' !in s
    ensures NbspToSpace(s) == s
  {
    assert forall i | 0 <= i < |s| :: s[i] in s;
  }

  lemma {:induction false} NbspOfEscape(s: string, quote: bool)
    ensures NbspToSpace(Escape(s, quote)) == Escape(NbspToSpace(s), quote)
  {
    if s != "" {
      NbspOfEscape(s[1..], quote);
      NbspOfConcat(EscapeChar(s[0], quote), Escape(s[1..], quote));
      assert NbspToSpace(s)[1..] == NbspToSpace(s[1..]);
    }
  }

  lemma NbspOfPrinted(t: Token)
    requires (t.Open? || t.Close?) ==> Paired(t.tag)
    ensures NbspToSpace(Printed(t)) == Printed(NbspToken(t))
  {
    match t
    case Text(text) => NbspOfEscape(text, false);
    case Break => NbspFree("<br>");
    case Close(tag) => NbspFree("</" + Name(tag) + ">");
    case Open(tag, None) => NbspFree("<" + Name(tag) + ">");
    case Open(tag, Some(target)) =>
      NbspOfEscape(target, true);
      NbspOfConcat("<a href=\"" + Escape(target, true), "\">");
      NbspOfConcat("<a href=\"", Escape(target, true));
      NbspFree("<a href=\"");
      NbspFree("\">");
  }

  lemma NbspKeepsTags(tokens: seq<Token>)
    requires KnownTags(tokens)
    ensures KnownTags(NbspTokens(tokens))
  {
    forall t | t in NbspTokens(tokens) && (t.Open? || t.Close?)
      ensures Paired(t.tag)
    {
      var i :| 0 <= i < |tokens| && t == NbspToken(tokens[i]);
      assert tokens[i] in tokens;
    }
  }

  lemma {:induction false} NbspOfRender(tokens: seq<Token>)
    requires KnownTags(tokens)
    ensures NbspToSpace(Render(tokens)) == Render(NbspTokens(tokens))
  {
    if tokens != [] {
      var t, rest := tokens[0], tokens[1..];
      assert tokens == [t] + rest;
      NbspOfRender(rest);
      NbspOfPrinted(t);
      NbspOfConcat(Printed(t), Render(rest));
      assert NbspTokens(tokens)[1..] == NbspTokens(rest);
      assert NbspTokens(tokens)[0] == NbspToken(t);
    }
  }

  lemma {:induction false} NbspOfText(tokens: seq<Token>)
    ensures TextOfTokens(NbspTokens(tokens)) == NbspToSpace(TextOfTokens(tokens))
  {
    if tokens != [] {
      var front, t := tokens[..|tokens| - 1], tokens[|tokens| - 1];
      NbspOfText(front);
      NbspOfConcat(TextOfTokens(front), TextOfToken(t));
      assert NbspTokens(tokens)[..|front|] == NbspTokens(front);
      NbspFree("\n");
    }
  }

  // ---- stripping commutes with projecting ----

  lemma {:induction false} RStripIsPrefix(s: string)
    ensures RStrip(s) <= s
    ensures RStrip(s) == "" || !IsSpace(RStrip(s)[|RStrip(s)| - 1])
  {
    if s != "" && IsSpace(s[|s| - 1]) {
      RStripIsPrefix(s[..|s| - 1]);
    }
  }

  lemma {:induction false} RStripCons(c: char, s: string)
    ensures RStrip([c] + s) == if RStrip(s) == "" && IsSpace(c) then "" else [c] + RStrip(s)
    decreases |s|
  {
    var all := [c] + s;
    if s == "" {
      assert all[..0] == "";
    } else {
      assert all[|all| - 1] == s[|s| - 1];
      if IsSpace(s[|s| - 1]) {
        assert all[..|all| - 1] == [c] + s[..|s| - 1];
        RStripCons(c, s[..|s| - 1]);
      }
    }
  }

  lemma {:induction false} StripsCommute(s: string)
    ensures Strip(s) == LStrip(RStrip(s))
  {
    if s != "" {
      StripsCommute(s[1..]);
      assert s == [s[0]] + s[1..];
      RStripCons(s[0], s[1..]);
    }
  }

  lemma {:induction false} TrimSeesNoTrailingSpace(s: string, c: char)
    requires IsSpace(c)
    ensures RStrip(TrimLineEnds(s + [c])) == RStrip(TrimLineEnds(s))
  {
    if s == "" {
      assert "" + [c] == [c] && [c][1..] == "";
      RStripCons(c, "");
      assert [c] + "" == [c];
    } else {
      var h, rest := s[0], s[1..];
      assert (s + [c])[0] == h && (s + [c])[1..] == rest + [c];
      TrimSeesNoTrailingSpace(rest, c);
      var u, v := TrimLineEnds(rest + [c]), TrimLineEnds(rest);
      RStripIsPrefix(u);
      RStripIsPrefix(v);
      RStripCons(h, u);
      RStripCons(h, v);
      if RStrip(v) != "" {
        assert u[0] == RStrip(u)[0] && v[0] == RStrip(v)[0];
      }
    }
  }

  lemma LeadingSpaceIsLost(c: char, s: string)
    requires IsSpace(c)
    ensures Strip(TrimLineEnds([c] + s)) == Strip(TrimLineEnds(s))
  {
    assert ([c] + s)[1..] == s;
    var rest := TrimLineEnds(s);
    assert ([c] + rest)[1..] == rest;
  }

  lemma TrailingSpaceIsLost(s: string, c: char)
    requires IsSpace(c)
    ensures Strip(TrimLineEnds(s + [c])) == Strip(TrimLineEnds(s))
  {
    TrimSeesNoTrailingSpace(s, c);
    StripsCommute(TrimLineEnds(s + [c]));
    StripsCommute(TrimLineEnds(s));
  }

  lemma ProjectLeading(c: char, s: string, unescape: string -> string)
    requires Unescapes(unescape) && IsSpace(c)
    ensures Project([c] + s, unescape) == [c] + Project(s, unescape)
  {
    BreaksSkip([c], s);
    TagsSkip([c], BreaksToNewlines(s));
    UnescapeKeepsPrefix([c], StripTags(BreaksToNewlines(s)), unescape);
  }

  lemma {:induction false} SpacesStop(s: string, c: char, k: nat)
    requires k <= |s|
    ensures SpacesAt(s + [c], k) == if SpacesAt(s, k) < |s| then SpacesAt(s, k) else if IsSpace(c) then |s| + 1 else |s|
    decreases |s| - k
  {
    if k < |s| && IsSpace(s[k]) {
      SpacesStop(s, c, k + 1);
    }
  }

  lemma BreakAtExtends(s: string, c: char)
    requires s != "" && IsSpace(c)
    ensures BreakAt(s + [c]) == BreakAt(s)
  {
    if |s| >= 3 && s[0] == '<' && Lower(s[1]) == 'b' && Lower(s[2]) == 'r' {
      SpacesStop(s, c, 3);
    }
  }

  lemma {:induction false} BreaksTrailing(s: string, c: char)
    requires IsSpace(c)
    ensures BreaksToNewlines(s + [c]) == BreaksToNewlines(s) + [c]
    decreases |s|
  {
    if s == "" {
      assert "" + [c] == [c];
      BreaksSkip([c], "");
      assert [c] + "" == [c];
    } else {
      BreakAtExtends(s, c);
      var n := if BreakAt(s) > 0 then BreakAt(s) else 1;
      assert (s + [c])[n..] == s[n..] + [c];
      BreaksTrailing(s[n..], c);
    }
  }

  lemma {:induction false} IndexExtends(s: string, c: char, d: char)
    requires c != d
    ensures IndexOf(s + [d], c) == if IndexOf(s, c) < |s| then IndexOf(s, c) else |s| + 1
  {
    if s == "" {
      assert "" + [d] == [d];
    } else {
      assert (s + [d])[0] == s[0] && (s + [d])[1..] == s[1..] + [d];
      IndexExtends(s[1..], c, d);
    }
  }

  lemma {:induction false} TagsTrailing(s: string, c: char)
    requires c != '<' && c != '>'
    ensures StripTags(s + [c]) == StripTags(s) + [c]
    decreases |s|
  {
    if s == "" {
      assert "" + [c] == [c];
      TagsSkip([c], "");
      assert [c] + "" == [c];
    } else {
      IndexExtends(s, '>', c);
      var n := if s[0] == '<' && IndexOf(s, '>') < |s| then IndexOf(s, '>') + 1 else 1;
      assert (s + [c])[n..] == s[n..] + [c] && (s + [c])[0] == s[0];
      TagsTrailing(s[n..], c);
    }
  }

  lemma ProjectTrailing(s: string, c: char, unescape: string -> string)
    requires Unescapes(unescape) && IsSpace(c)
    ensures Project(s + [c], unescape) == Project(s, unescape) + [c]
  {
    BreaksTrailing(s, c);
    TagsTrailing(BreaksToNewlines(s), c);
    assert unescape(StripTags(BreaksToNewlines(s)) + [c]) == unescape(StripTags(BreaksToNewlines(s))) + [c];
  }

  /** What no white space at either end changes, stripping does not change. */
  lemma {:induction false} LStripKeeps(s: string, f: string -> string)
    requires forall c, rest: string | IsSpace(c) :: f([c] + rest) == f(rest)
    ensures f(LStrip(s)) == f(s)
  {
    if s != "" && IsSpace(s[0]) {
      LStripKeeps(s[1..], f);
      assert [s[0]] + s[1..] == s;
    }
  }

  lemma {:induction false} RStripKeeps(s: string, f: string -> string)
    requires forall front: string, c | IsSpace(c) :: f(front + [c]) == f(front)
    ensures f(RStrip(s)) == f(s)
  {
    if s != "" && IsSpace(s[|s| - 1]) {
      var front := s[..|s| - 1];
      RStripKeeps(front, f);
      assert front + [s[|s| - 1]] == s;
    }
  }

  lemma PlainDropsSpace(s: string, c: char, html: Html)
    requires Unescapes(html.unescape) && IsSpace(c)
    ensures ToPlain([c] + s, html) == ToPlain(s, html) && ToPlain(s + [c], html) == ToPlain(s, html)
  {
    ProjectLeading(c, s, html.unescape);
    LeadingSpaceIsLost(c, Project(s, html.unescape));
    ProjectTrailing(s, c, html.unescape);
    TrailingSpaceIsLost(Project(s, html.unescape), c);
  }

  lemma PlainOfStripped(s: string, html: Html)
    requires Unescapes(html.unescape)
    ensures ToPlain(Strip(s), html) == ToPlain(s, html)
  {
    var f := (s: string) => ToPlain(s, html);
    forall c, rest: string | IsSpace(c)
      ensures f([c] + rest) == f(rest) && f(rest + [c]) == f(rest)
    {
      PlainDropsSpace(rest, c, html);
    }
    LStripKeeps(s, f);
    RStripKeeps(LStrip(s), f);
  }

  /** The text of one field's input: what the parser reports of it, nbsp read as a space, white space trimmed. */
  function FieldText(value: string, html: Html): string {
    if Blank(value) then ""
    else Strip(TrimLineEnds(NbspToSpace(TextOfEvents(html.parse(Take(value, MAX_RAW_CHARS))))))
  }

  /** For any parser and any input, the plain text of the rich field is the input's own text. */
  lemma PlainOfRich(value: string, html: Html)
    requires Unescapes(html.unescape)
    ensures ToPlain(ToRich(value, html), html) == FieldText(value, html)
  {
    if Blank(value) {
      EmptyHoldsNoReference(html.unescape);
    } else {
      PlainOfPrinted(html.parse(Take(value, MAX_RAW_CHARS)), html);
    }
  }

  lemma PlainOfPrinted(events: seq<Event>, html: Html)
    requires Unescapes(html.unescape)
    ensures ToPlain(Strip(NbspToSpace(Render(Sanitized(events, html.unescape)))), html)
         == Strip(TrimLineEnds(NbspToSpace(TextOfEvents(events))))
  {
    var tokens := Sanitized(events, html.unescape);
    SanitizedIsRich(events, html.unescape);
    RichTagsAreKnown(tokens);
    NbspOfRender(tokens);
    NbspKeepsTags(tokens);
    var printed := NbspToSpace(Render(tokens));
    PlainOfStripped(printed, html);
    ProjectUndoesRender(NbspTokens(tokens), html.unescape);
    NbspOfText(tokens);
    SanitizedKeepsText(events, html.unescape);
  }

  // ---- the length cap ----

  /** `_both`: the stored markup and its flat text; past the cap the formatting is dropped. */
  function Both(value: string, html: Html): (string, string) {
    var rich := ToRich(value, html);
    var plain := ToPlain(rich, html);
    if |plain| > MAX_BLOCK_CHARS then (Escape(plain[..MAX_BLOCK_CHARS], false), plain[..MAX_BLOCK_CHARS])
    else (rich, plain)
  }

  /** No blank sits before a line end or at the end of the text. */
  predicate LineEndsTrimmed(s: string) {
    forall i | 0 <= i < |s| && IsBlankChar(s[i]) :: i + 1 < |s| && s[i + 1] != '\n'
  }

  lemma {:induction false} TrimLeavesTrimmed(s: string)
    ensures LineEndsTrimmed(TrimLineEnds(s))
  {
    if s != "" {
      TrimLeavesTrimmed(s[1..]);
    }
  }

  lemma {:induction false} TrimmedStays(s: string)
    requires LineEndsTrimmed(s)
    ensures TrimLineEnds(s) == s
  {
    if s != "" {
      assert forall i | 0 <= i < |s| - 1 :: s[1..][i] == s[i + 1];
      TrimmedStays(s[1..]);
      assert s == [s[0]] + s[1..];
    }
  }

  lemma {:induction false} LStripIsSuffix(s: string)
    ensures |LStrip(s)| <= |s| && LStrip(s) == s[|s| - |LStrip(s)|..]
    ensures LStrip(s) == "" || !IsSpace(LStrip(s)[0])
  {
    if s != "" && IsSpace(s[0]) {
      LStripIsSuffix(s[1..]);
    }
  }

  /** Trimmed text starts and ends with something visible, and has clean line ends. */
  predicate Tidy(s: string) {
    LineEndsTrimmed(s) && (s == "" || (!IsSpace(s[0]) && !IsSpace(s[|s| - 1])))
  }

  lemma TrimmedIsTidy(s: string)
    ensures Tidy(Strip(TrimLineEnds(s)))
  {
    var t := TrimLineEnds(s);
    TrimLeavesTrimmed(s);
    var l := LStrip(t);
    LStripIsSuffix(t);
    RStripIsPrefix(l);
    var p := RStrip(l);
    var n := |t| - |l|;
    forall i | 0 <= i < |p| && IsBlankChar(p[i])
      ensures i + 1 < |p| && p[i + 1] != '\n'
    {
      assert p[i] == t[n + i];
    }
  }

  lemma TidyIsFixed(s: string)
    requires Tidy(s)
    ensures Strip(TrimLineEnds(s)) == s
  {
    TrimmedStays(s);
  }

  lemma {:induction false} TrimShortens(s: string)
    ensures TrimLineEnds(s) == s || |TrimLineEnds(s)| < |s|
    ensures s != "" && !IsSpace(s[0]) ==> TrimLineEnds(s) != "" && TrimLineEnds(s)[0] == s[0]
  {
    if s != "" {
      TrimShortens(s[1..]);
      assert s == [s[0]] + s[1..];
    }
  }

  lemma {:induction false} RStripKeepsVisible(s: string)
    requires s != "" && !IsSpace(s[0])
    ensures RStrip(s) != ""
  {
    if IsSpace(s[|s| - 1]) {
      RStripKeepsVisible(s[..|s| - 1]);
    }
  }

  /** Trimming leaves the text alone or makes it shorter, and never loses all of a visible one. */
  lemma StripShortens(s: string)
    ensures var p := Strip(TrimLineEnds(s));
            (p == s || |p| < |s|) && (s != "" && !IsSpace(s[0]) ==> p != "")
  {
    var t := TrimLineEnds(s);
    TrimShortens(s);
    LStripIsSuffix(t);
    RStripIsPrefix(LStrip(t));
    if s != "" && !IsSpace(s[0]) {
      RStripKeepsVisible(t);
    }
  }

  lemma EscapedProjectsBack(s: string, unescape: string -> string)
    requires Unescapes(unescape)
    ensures Project(Escape(s, false), unescape) == s
  {
    var e := Escape(s, false);
    assert e + "" == e && s + "" == s;
    EscapedIsInert(s, false);
    BreaksSkip(e, "");
    TagsSkip(e, "");
    UnescapeUndoesEscape(s, "", unescape);
    EmptyHoldsNoReference(unescape);
  }

  /** The field's text fits the cap, or the cut happens to fall behind a visible character. */
  predicate SurvivesCap(value: string, html: Html) {
    var whole := FieldText(value, html);
    |whole| <= MAX_BLOCK_CHARS || !IsSpace(whole[MAX_BLOCK_CHARS - 1])
  }

  /**
   Re-reading stored markup gives the stored text exactly when the field survives the cap: a cut
   behind white space leaves text that re-reading trims, and then it comes out shorter.
   */
  lemma BothAgreeIff(value: string, html: Html)
    requires Unescapes(html.unescape)
    ensures var (rich, plain) := Both(value, html);
            && plain == Take(FieldText(value, html), MAX_BLOCK_CHARS)
            && (ToPlain(rich, html) == plain <==> SurvivesCap(value, html))
            && (ToPlain(rich, html) == plain || |ToPlain(rich, html)| < |plain|)
            && (plain != "" ==> ToPlain(rich, html) != "")
  {
    var whole := FieldText(value, html);
    PlainOfRich(value, html);
    if |whole| > MAX_BLOCK_CHARS {
      TrimmedIsTidy(NbspToSpace(TextOfEvents(html.parse(Take(value, MAX_RAW_CHARS)))));
      CutAgreesIff(whole);
      EscapedProjectsBack(whole[..MAX_BLOCK_CHARS], html.unescape);
    }
  }

  /** What the sanitizer prints of the first 80000 characters, without the white space around it. */
  ghost predicate IsMarkup(value: string, html: Html, markup: string) {
    if Blank(value) then markup == ""
    else exists head: string ::
      && head <= value && |head| == Min(80_000, |value|)
      && IsStripped(NbspToSpace(Render(Sanitized(html.parse(head), html.unescape))), markup)
  }

  /** A field that fits keeps its formatting; of a longer one the first 20000 characters of text are stored, escaped. */
  lemma FieldMarkup(value: string, html: Html)
    requires Unescapes(html.unescape)
    ensures var (rich, plain) := Both(value, html);
            if |FieldText(value, html)| <= 20_000 then IsMarkup(value, html, rich) && plain == FieldText(value, html)
            else rich == Escape(plain, false) && plain == FieldText(value, html)[..20_000]
  {
    PlainOfRich(value, html);
    var head := Take(value, MAX_RAW_CHARS);
    StripStrips(NbspToSpace(Render(Sanitized(html.parse(head), html.unescape))));
  }

  lemma CutAgreesIff(whole: string)
    requires Tidy(whole) && |whole| > MAX_BLOCK_CHARS
    ensures var cut := whole[..MAX_BLOCK_CHARS];
            var p := Strip(TrimLineEnds(cut));
            && (p == cut <==> !IsSpace(cut[MAX_BLOCK_CHARS - 1]))
            && (p == cut || |p| < |cut|) && p != ""
  {
    var cut := whole[..MAX_BLOCK_CHARS];
    TrimmedIsTidy(cut);
    StripShortens(cut);
    if !IsSpace(cut[MAX_BLOCK_CHARS - 1]) {
      forall i | 0 <= i < |cut| && IsBlankChar(cut[i])
        ensures i + 1 < |cut| && cut[i + 1] != '\n'
      {
        assert cut[i] == whole[i];
      }
      TidyIsFixed(cut);
    }
  }

  // ---- a field that the cap breaks ----

  /** `n` letters, a space and one more letter. */
  function Words(n: nat): (s: string)
    ensures |s| == n + 2 && s[n] == ' ' && s[n + 1] == 'b' && forall i | 0 <= i < n :: s[i] == 'a'
  {
    seq(n, i => 'a') + " b"
  }

  lemma WordsAreTidy(n: nat)
    requires n > 0
    ensures Tidy(Words(n)) && '\U{a0}' !in Words(n) && !Blank(Words(n))
  {
    var s := Words(n);
    assert forall i | 0 <= i < |s| :: s[i] == 'a' || i >= n;
    assert !IsSpace(s[0]);
  }

  lemma TextOfOneEvent(e: Event)
    ensures TextOfEvents([e]) == TextOfEvent(e)
  {
    assert [e][..0] == [] && TextOfEvents([]) == "";
    assert "" + TextOfEvent(e) == TextOfEvent(e);
  }

  lemma PlainFieldText(s: string, html: Html)
    requires Strip(TrimLineEnds(s)) == s && '\U{a0}' !in s && !Blank(s) && |s| <= MAX_RAW_CHARS
    requires html.parse(s) == [Data(s)]
    ensures FieldText(s, html) == s
  {
    NbspFree(s);
    TextOfOneEvent(Data(s));
  }

  /** One letter short of the cap, then a space: read as a text without markup, its markup and its text differ. */
  lemma CutFieldDisagrees(html: Html)
    requires Unescapes(html.unescape)
    requires var s := Words(MAX_BLOCK_CHARS - 1); html.parse(s) == [Data(s)]
    ensures var (rich, plain) := Both(Words(MAX_BLOCK_CHARS - 1), html); ToPlain(rich, html) != plain
  {
    var s := Words(MAX_BLOCK_CHARS - 1);
    WordsAreTidy(MAX_BLOCK_CHARS - 1);
    TidyIsFixed(s);
    PlainFieldText(s, html);
    BothAgreeIff(s, html);
    assert IsSpace(s[MAX_BLOCK_CHARS - 1]);
  }
}
