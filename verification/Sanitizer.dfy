/**
 The inline sanitizer: a stack machine that turns any sequence of parser events into a bounded,
 well-nested list of allowlisted tokens.
 */
module Sanitizer {
  import opened Base
  import opened HtmlText

  const MAX_INLINE_NESTING: nat := 8

  /** Tag names by the role they play here; `BlockTag` is one of the names that carry a line break. */
  datatype Tag =
    | BTag | ITag | UTag | MarkTag | CodeTag | ATag | BrTag
    | StrongTag | EmTag | InsTag
    | BlockTag(name: string) | OtherTag(name: string)

  /** What the HTML parser reports; `href` is the attribute it found, already unescaped. */
  datatype Event =
    | StartTag(tag: Tag, href: Option<string>)
    | StartEndTag(tag: Tag)
    | EndTag(tag: Tag)
    | Data(text: string)

  /** One piece of the output before it is printed. */
  datatype Token = Open(tag: Tag, href: Option<string>) | Close(tag: Tag) | Break | Text(text: string)

  function Normalize(tag: Tag): Tag {
    match tag
    case StrongTag => BTag
    case EmTag => ITag
    case InsTag => UTag
    case _ => tag
  }

  /** The allowlist, apart from `br`. */
  predicate Paired(tag: Tag) {
    tag.BTag? || tag.ITag? || tag.UTag? || tag.MarkTag? || tag.CodeTag? || tag.ATag?
  }

  // ---- link targets ----

  /** Stripped before the scheme is checked. */
  predicate IsNoise(c: char) {
    IsSpace(c) || c < ' ' || c == '\U{7f}'
  }

  function WithoutNoise(s: string): (r: string)
    ensures forall i | 0 <= i < |r| :: !IsNoise(r[i])
  {
    if s == "" then "" else if IsNoise(s[0]) then WithoutNoise(s[1..]) else [s[0]] + WithoutNoise(s[1..])
  }

  /** `re.IGNORECASE` on a letter of a scheme: the long s and the dotted and dotless i count too. */
  predicate MatchesLetter(c: char, letter: char) {
    || Lower(c) == letter
    || (letter == 's' && c == '\U{17f}')
    || (letter == 'i' && (c == '\U{130}' || c == '\U{131}'))
  }

  predicate StartsWithIgnoringCase(s: string, prefix: string) {
    |s| >= |prefix| && forall i | 0 <= i < |prefix| :: MatchesLetter(s[i], prefix[i])
  }

  predicate SafeScheme(s: string) {
    || StartsWithIgnoringCase(s, "http://") || StartsWithIgnoringCase(s, "https://")
    || StartsWithIgnoringCase(s, "mailto:")
  }

  /** `_safe_href`; `unescape` is `html.unescape`. */
  function SafeHref(value: Option<string>, unescape: string -> string): (r: Option<string>)
    ensures r.Some? ==> SafeScheme(r.value) && WithoutNoise(r.value) == r.value
  {
    if !Present(value) then None
    else
      var cleaned := WithoutNoise(unescape(value.value));
      NoiseFree(cleaned);
      if SafeScheme(cleaned) then Some(cleaned) else None
  }

  lemma {:induction false} NoiseFree(s: string)
    requires forall i | 0 <= i < |s| :: !IsNoise(s[i])
    ensures WithoutNoise(s) == s
  {
    if s != "" {
      NoiseFree(s[1..]);
    }
  }

  // ---- the machine ----

  datatype Machine = Machine(out: seq<Token>, open: seq<Tag>)

  /** The tags from position `k` up, closed innermost first. */
  function Closing(open: seq<Tag>, k: nat): seq<Token>
    requires k <= |open|
    decreases |open|
  {
    if |open| == k then [] else [Close(open[|open| - 1])] + Closing(open[..|open| - 1], k)
  }

  /** Where the innermost open `tag` is. */
  function LastOpen(open: seq<Tag>, tag: Tag): (k: nat)
    requires tag in open
    ensures k < |open| && open[k] == tag && tag !in open[k + 1..]
  {
    if open[|open| - 1] == tag then |open| - 1
    else
      assert open == open[..|open| - 1] + [open[|open| - 1]];
      var k := LastOpen(open[..|open| - 1], tag);
      assert open[k + 1..] == open[..|open| - 1][k + 1..] + [open[|open| - 1]];
      k
  }

  function Handled(m: Machine, e: Event, unescape: string -> string): Machine {
    match e
    case Data(text) => m.(out := m.out + [Text(text)])
    case StartEndTag(raw) => if Normalize(raw).BrTag? then m.(out := m.out + [Break]) else m
    case StartTag(raw, href) =>
      var tag := Normalize(raw);
      if tag.BrTag? then m.(out := m.out + [Break])
      else if !Paired(tag) || |m.open| >= MAX_INLINE_NESTING then m
      else if tag.ATag? then
        if SafeHref(href, unescape).None? then m
        else Machine(m.out + [Open(ATag, SafeHref(href, unescape))], m.open + [ATag])
      else Machine(m.out + [Open(tag, None)], m.open + [tag])
    case EndTag(raw) =>
      var tag := Normalize(raw);
      if tag.BlockTag? then m.(out := m.out + [Break])
      else if tag.BrTag? || tag !in m.open then m
      else
        var k := LastOpen(m.open, tag);
        Machine(m.out + Closing(m.open, k), m.open[..k])
  }

  function Fed(events: seq<Event>, unescape: string -> string): Machine {
    if events == [] then Machine([], [])
    else Handled(Fed(events[..|events| - 1], unescape), events[|events| - 1], unescape)
  }

  /** Everything still open is closed at the end. */
  function Sanitized(events: seq<Event>, unescape: string -> string): seq<Token> {
    var m := Fed(events, unescape);
    m.out + Closing(m.open, 0)
  }

  class InlineSanitizer {
    const unescape: string -> string
    var out: seq<Token>
    var open: seq<Tag>

    constructor (unescape: string -> string)
      ensures State() == Machine([], []) && this.unescape == unescape
    {
      this.unescape := unescape;
      out, open := [], [];
    }

    ghost function State(): Machine
      reads this
    {
      Machine(out, open)
    }

    method HandleStartTag(raw: Tag, href: Option<string>)
      modifies this
      ensures State() == Handled(old(State()), StartTag(raw, href), unescape)
    {
      var tag := Normalize(raw);
      if tag.BrTag? {
        out := out + [Break];
        return;
      }
      if !Paired(tag) || |open| >= MAX_INLINE_NESTING {
        return;
      }
      if tag.ATag? {
        var target := SafeHref(href, unescape);
        if target.None? {
          return;
        }
        out := out + [Open(ATag, target)];
      } else {
        out := out + [Open(tag, None)];
      }
      open := open + [tag];
    }

    method HandleStartEndTag(raw: Tag)
      modifies this
      ensures State() == Handled(old(State()), StartEndTag(raw), unescape)
    {
      if Normalize(raw).BrTag? {
        out := out + [Break];
      }
    }

    method HandleEndTag(raw: Tag)
      modifies this
      ensures State() == Handled(old(State()), EndTag(raw), unescape)
    {
      var tag := Normalize(raw);
      if tag.BlockTag? {
        out := out + [Break];
        return;
      }
      if tag.BrTag? || tag !in open {
        return;
      }
      CloseThrough(tag);
    }

    /** Closes through to the innermost matching tag, so nothing is left dangling. */
    method CloseThrough(tag: Tag)
      requires tag in open
      modifies this
      ensures out == old(out) + Closing(old(open), LastOpen(old(open), tag))
      ensures open == old(open)[..LastOpen(old(open), tag)]
    {
      ghost var k := LastOpen(open, tag);
      while open != []
        invariant tag in open && LastOpen(open, tag) == k && open[..k] == old(open)[..k]
        invariant out + Closing(open, k) == old(out) + Closing(old(open), k)
        decreases |open|
      {
        var top, rest := open[|open| - 1], open[..|open| - 1];
        assert Closing(open, k) == [Close(top)] + Closing(rest, k);
        assert (out + [Close(top)]) + Closing(rest, k) == out + Closing(open, k);
        out := out + [Close(top)];
        if top == tag {
          open := rest;
          break;
        }
        assert rest[..k] == open[..k];
        open := rest;
      }
    }

    method HandleData(text: string)
      modifies this
      ensures State() == Handled(old(State()), Data(text), unescape)
    {
      out := out + [Text(text)];
    }

    method Feed(events: seq<Event>)
      requires State() == Machine([], [])
      modifies this
      ensures State() == Fed(events, unescape)
    {
      for i := 0 to |events|
        invariant State() == Fed(events[..i], unescape)
      {
        assert events[..i + 1][..i] == events[..i];
        match events[i]
        case StartTag(tag, href) => HandleStartTag(tag, href);
        case StartEndTag(tag) => HandleStartEndTag(tag);
        case EndTag(tag) => HandleEndTag(tag);
        case Data(text) => HandleData(text);
      }
      assert events[..|events|] == events;
    }

    method Result() returns (tokens: seq<Token>)
      modifies this
      ensures tokens == old(out) + Closing(old(open), 0) && open == []
    {
      while open != []
        invariant out + Closing(open, 0) == old(out) + Closing(old(open), 0)
        decreases |open|
      {
        out := out + [Close(open[|open| - 1])];
        open := open[..|open| - 1];
      }
      tokens := out;
    }
  }

  /** What `to_rich` does with its parser: feed it, close it, take the result. */
  method SanitizeInline(events: seq<Event>, unescape: string -> string) returns (tokens: seq<Token>)
    ensures tokens == Sanitized(events, unescape)
  {
    var parser := new InlineSanitizer(unescape);
    parser.Feed(events);
    tokens := parser.Result();
  }

  // ---- what each event leaves ----

  /** The older spellings of three tags. */
  predicate AliasOf(raw: Tag, tag: Tag) {
    if raw.StrongTag? then tag.BTag? else if raw.EmTag? then tag.ITag? else if raw.InsTag? then tag.UTag?
    else tag == raw
  }

  /** A start tag opens its alias, links only with a target that survives, at most eight deep; `br` is a break. */
  lemma StartTagLeaves(m: Machine, raw: Tag, href: Option<string>, unescape: string -> string)
    ensures var t := Handled(m, StartTag(raw, href), unescape);
            exists tag :: AliasOf(raw, tag) &&
              if tag.BrTag? then t == Machine(m.out + [Break], m.open)
              else if tag in {BTag, ITag, UTag, MarkTag, CodeTag} && |m.open| < 8 then
                t == Machine(m.out + [Open(tag, None)], m.open + [tag])
              else if tag.ATag? && |m.open| < 8 && SafeHref(href, unescape).Some? then
                t == Machine(m.out + [Open(ATag, SafeHref(href, unescape))], m.open + [ATag])
              else t == m
  {
    assert AliasOf(raw, Normalize(raw));
  }

  /** The tags above place `k` are closed innermost first. */
  lemma {:induction false} ClosingIs(open: seq<Tag>, k: nat)
    requires k <= |open|
    ensures |Closing(open, k)| == |open| - k
    ensures forall j | 0 <= j < |open| - k :: Closing(open, k)[j] == Close(open[|open| - 1 - j])
    decreases |open|
  {
    if |open| > k {
      ClosingIs(open[..|open| - 1], k);
    }
  }

  /** `t` is `m` with everything down to its innermost open `tag`, at place `k`, closed innermost first. */
  predicate ClosesThrough(m: Machine, t: Machine, tag: Tag, k: nat) {
    && k < |m.open| && m.open[k] == tag && tag !in m.open[k + 1..] && t.open == m.open[..k]
    && |t.out| == |m.out| + |m.open| - k && m.out <= t.out
    && forall i | |m.out| <= i < |t.out| :: t.out[i] == Close(m.open[|m.open| - 1 - (i - |m.out|)])
  }

  /** An end tag closes everything down to the innermost one it names; a block's leaves a break; any other nothing. */
  lemma EndTagLeaves(m: Machine, raw: Tag, unescape: string -> string)
    ensures var t := Handled(m, EndTag(raw), unescape);
            exists tag :: AliasOf(raw, tag) &&
              if tag.BlockTag? then t == Machine(m.out + [Break], m.open)
              else if tag.BrTag? || tag !in m.open then t == m
              else exists k: nat :: ClosesThrough(m, t, tag, k)
  {
    var tag := Normalize(raw);
    assert AliasOf(raw, tag);
    if !tag.BlockTag? && !tag.BrTag? && tag in m.open {
      var k := LastOpen(m.open, tag);
      ClosingIs(m.open, k);
      assert ClosesThrough(m, Handled(m, EndTag(raw), unescape), tag, k);
    }
  }

  /** Text and a self-closed `br` are copied, any other self-closed tag is dropped. */
  lemma OtherEventsLeave(m: Machine, raw: Tag, text: string, unescape: string -> string)
    ensures Handled(m, Data(text), unescape) == Machine(m.out + [Text(text)], m.open)
    ensures Handled(m, StartEndTag(raw), unescape) == if raw.BrTag? then Machine(m.out + [Break], m.open) else m
  {
  }

  lemma {:induction false} NoiseOfConcat(a: string, b: string)
    ensures WithoutNoise(a + b) == WithoutNoise(a) + WithoutNoise(b)
  {
    if a == "" {
      assert a + b == b;
    } else {
      NoiseOfConcat(a[1..], b);
      assert (a + b)[0] == a[0] && (a + b)[1..] == a[1..] + b;
    }
  }

  /** Cleaning goes character by character and drops exactly white space and control characters. */
  lemma NoiseIsDropped(a: string, c: char, b: string)
    ensures WithoutNoise(a + b) == WithoutNoise(a) + WithoutNoise(b)
    ensures WithoutNoise([c]) == if IsSpace(c) || c < ' ' || c == '\U{7f}' then "" else [c]
  {
    NoiseOfConcat(a, b);
    assert [c][1..] == "";
  }

  /** The letter in either case, or one of the three characters that fold to it. */
  predicate Reads(c: char, letter: char) {
    || c == letter || ('a' <= letter <= 'z' && c as int + 32 == letter as int)
    || (letter == 's' && c == '\U{17f}') || (letter == 'i' && c in {'\U{130}', '\U{131}'})
  }

  predicate HasScheme(s: string, scheme: string) {
    |s| >= |scheme| && forall i | 0 <= i < |scheme| :: Reads(s[i], scheme[i])
  }

  /** A web or a mail address. */
  predicate Reachable(s: string) {
    HasScheme(s, "http://") || HasScheme(s, "https://") || HasScheme(s, "mailto:")
  }

  lemma SchemeIs(s: string, scheme: string)
    requires forall i | 0 <= i < |scheme| :: !('A' <= scheme[i] <= 'Z')
    ensures StartsWithIgnoringCase(s, scheme) <==> HasScheme(s, scheme)
  {
    forall i | 0 <= i < |scheme| && i < |s|
      ensures MatchesLetter(s[i], scheme[i]) <==> Reads(s[i], scheme[i])
    {
    }
  }

  /** A target is kept exactly when it is there and what is left of it starts with a web or mail scheme. */
  lemma SafeHrefIs(value: Option<string>, unescape: string -> string)
    ensures SafeHref(value, unescape) ==
            if value.Some? && value.value != "" && Reachable(WithoutNoise(unescape(value.value)))
            then Some(WithoutNoise(unescape(value.value))) else None
  {
    if value.Some? {
      var cleaned := WithoutNoise(unescape(value.value));
      SchemeIs(cleaned, "http://");
      SchemeIs(cleaned, "https://");
      SchemeIs(cleaned, "mailto:");
    }
  }

  // ---- the language of stored markup ----

  /** The tags still open after these tokens, or `None` when they break a rule of the language. */
  function Nesting(tokens: seq<Token>): Option<seq<Tag>> {
    if tokens == [] then Some([])
    else
      var before := Nesting(tokens[..|tokens| - 1]);
      if before.None? then None else Nested(before.value, tokens[|tokens| - 1])
  }

  function Nested(open: seq<Tag>, t: Token): Option<seq<Tag>> {
    match t
    case Text(_) => Some(open)
    case Break => Some(open)
    case Open(tag, href) =>
      if Paired(tag) && |open| < MAX_INLINE_NESTING
         && (if tag.ATag? then href.Some? && SafeScheme(href.value) && WithoutNoise(href.value) == href.value
             else href.None?)
      then Some(open + [tag]) else None
    case Close(tag) =>
      if open != [] && open[|open| - 1] == tag then Some(open[..|open| - 1]) else None
  }

  /** Well nested, at most MAX_INLINE_NESTING deep, allowlisted tags only, safe link targets only. */
  predicate IsRich(tokens: seq<Token>) {
    Nesting(tokens) == Some([])
  }

  lemma NestingStep(tokens: seq<Token>, t: Token)
    ensures Nesting(tokens + [t]) == if Nesting(tokens).None? then None else Nested(Nesting(tokens).value, t)
  {
    assert (tokens + [t])[..|tokens|] == tokens;
  }

  lemma CloseNests(tokens: seq<Token>, open: seq<Tag>)
    requires open != [] && Nesting(tokens) == Some(open)
    ensures Nesting(tokens + [Close(open[|open| - 1])]) == Some(open[..|open| - 1])
  {
    NestingStep(tokens, Close(open[|open| - 1]));
  }

  lemma ClosingStep(tokens: seq<Token>, open: seq<Tag>, k: nat)
    requires k < |open|
    ensures tokens + Closing(open, k) == (tokens + [Close(open[|open| - 1])]) + Closing(open[..|open| - 1], k)
  {
  }

  lemma {:induction false} ClosingNests(tokens: seq<Token>, open: seq<Tag>, k: nat)
    requires k <= |open| && Nesting(tokens) == Some(open)
    ensures Nesting(tokens + Closing(open, k)) == Some(open[..k])
    decreases |open|
  {
    if |open| == k {
      assert tokens + [] == tokens && open[..k] == open;
    } else {
      var rest := open[..|open| - 1];
      CloseNests(tokens, open);
      ClosingNests(tokens + [Close(open[|open| - 1])], rest, k);
      ClosingStep(tokens, open, k);
      assert rest[..k] == open[..k];
    }
  }

  lemma HandledNests(m: Machine, e: Event, unescape: string -> string)
    requires Nesting(m.out) == Some(m.open)
    ensures Nesting(Handled(m, e, unescape).out) == Some(Handled(m, e, unescape).open)
  {
    match e
    case EndTag(raw) =>
      var tag := Normalize(raw);
      if tag.BlockTag? {
        NestingStep(m.out, Break);
      } else if !tag.BrTag? && tag in m.open {
        ClosingNests(m.out, m.open, LastOpen(m.open, tag));
      }
    case Data(text) => NestingStep(m.out, Text(text));
    case StartEndTag(_) => NestingStep(m.out, Break);
    case StartTag(raw, href) =>
      var tag := Normalize(raw);
      if tag.BrTag? {
        NestingStep(m.out, Break);
      } else if tag.ATag? {
        OpenedLinkNests(m, SafeHref(href, unescape));
      } else {
        NestingStep(m.out, Open(tag, None));
      }
  }

  lemma OpenedLinkNests(m: Machine, target: Option<string>)
    requires target.Some? ==> SafeScheme(target.value) && WithoutNoise(target.value) == target.value
    requires Nesting(m.out) == Some(m.open)
    ensures target.Some? && |m.open| < MAX_INLINE_NESTING ==>
              Nesting(m.out + [Open(ATag, target)]) == Some(m.open + [ATag])
  {
    NestingStep(m.out, Open(ATag, target));
  }

  lemma FedOneMore(events: seq<Event>, e: Event, unescape: string -> string)
    ensures Fed(events + [e], unescape) == Handled(Fed(events, unescape), e, unescape)
  {
    assert (events + [e])[..|events|] == events;
  }

  lemma {:induction false} FedNests(events: seq<Event>, unescape: string -> string)
    ensures Nesting(Fed(events, unescape).out) == Some(Fed(events, unescape).open)
  {
    if events != [] {
      FedNests(events[..|events| - 1], unescape);
      HandledNests(Fed(events[..|events| - 1], unescape), events[|events| - 1], unescape);
    }
  }

  /** Whatever the parser reports, the output is in the language. */
  lemma SanitizedIsRich(events: seq<Event>, unescape: string -> string)
    ensures IsRich(Sanitized(events, unescape))
  {
    FedNests(events, unescape);
    ClosingNests(Fed(events, unescape).out, Fed(events, unescape).open, 0);
  }

  // ---- a projection onto that language ----

  /** How the parser reads our own markup back. */
  function EventOf(t: Token): Event {
    match t
    case Open(tag, href) => StartTag(tag, href)
    case Close(tag) => EndTag(tag)
    case Break => StartTag(BrTag, None)
    case Text(text) => Data(text)
  }

  function EventsOf(tokens: seq<Token>): seq<Event> {
    seq(|tokens|, i requires 0 <= i < |tokens| => EventOf(tokens[i]))
  }

  /** No link target holds anything `html.unescape` reads as a reference. */
  predicate StableLinks(tokens: seq<Token>, unescape: string -> string) {
    forall t | t in tokens :: StableLink(t, unescape)
  }

  predicate StableLink(t: Token, unescape: string -> string) {
    t.Open? && t.href.Some? ==> unescape(t.href.value) == t.href.value
  }

  lemma LastOpenIsTop(open: seq<Tag>)
    requires open != []
    ensures LastOpen(open, open[|open| - 1]) == |open| - 1
    ensures Closing(open, |open| - 1) == [Close(open[|open| - 1])]
  {
    var rest := open[..|open| - 1];
    assert Closing(rest, |open| - 1) == [];
  }

  /** Reading back one token of the language repeats it, up to a re-cleaned link target. */
  lemma HandledBack(out: seq<Token>, open: seq<Tag>, t: Token, unescape: string -> string)
    requires Unescapes(unescape)
    requires Nested(open, t).Some? && forall tag | tag in open :: Paired(tag)
    ensures t.Open? && t.tag.ATag? ==>
              && SafeHref(t.href, unescape).Some?
              && Handled(Machine(out, open), EventOf(t), unescape)
                  == Machine(out + [Open(ATag, SafeHref(t.href, unescape))], open + [ATag])
    ensures StableLink(t, unescape) ==>
              Handled(Machine(out, open), EventOf(t), unescape) == Machine(out + [t], Nested(open, t).value)
  {
    match t
    case Open(tag, href) =>
      if tag.ATag? {
        CleanedStaysSafe(href.value, unescape);
      }
    case Close(tag) =>
      assert tag in open;
      LastOpenIsTop(open);
    case _ =>
  }

  lemma {:induction false} FedBack(tokens: seq<Token>, unescape: string -> string)
    requires Unescapes(unescape)
    requires Nesting(tokens).Some? && StableLinks(tokens, unescape)
    ensures Fed(EventsOf(tokens), unescape) == Machine(tokens, Nesting(tokens).value)
  {
    if tokens != [] {
      var front, t := tokens[..|tokens| - 1], tokens[|tokens| - 1];
      assert tokens == front + [t];
      FedBack(front, unescape);
      assert EventsOf(tokens)[..|front|] == EventsOf(front);
      OpenTagsArePaired(front);
      HandledBack(front, Nesting(front).value, t, unescape);
    }
  }

  lemma {:induction false} OpenTagsArePaired(tokens: seq<Token>)
    requires Nesting(tokens).Some?
    ensures forall tag | tag in Nesting(tokens).value :: Paired(tag)
  {
    if tokens != [] {
      OpenTagsArePaired(tokens[..|tokens| - 1]);
    }
  }

  lemma {:induction false} FedGrows(events: seq<Event>, n: nat, unescape: string -> string)
    requires n <= |events|
    ensures Fed(events[..n], unescape).out <= Fed(events, unescape).out
    decreases |events|
  {
    if n < |events| {
      FedGrows(events[..|events| - 1], n, unescape);
      assert events[..|events| - 1][..n] == events[..n];
    } else {
      assert events[..n] == events;
    }
  }

  lemma SanitizedGrows(events: seq<Event>, n: nat, unescape: string -> string)
    requires n <= |events|
    ensures Fed(events[..n], unescape).out <= Sanitized(events, unescape)
  {
    FedGrows(events, n, unescape);
  }

  lemma {:induction false} PrefixNests(tokens: seq<Token>, n: nat)
    requires n <= |tokens| && Nesting(tokens).Some?
    ensures Nesting(tokens[..n]).Some?
    decreases |tokens|
  {
    if n < |tokens| {
      PrefixNests(tokens[..|tokens| - 1], n);
      assert tokens[..|tokens| - 1][..n] == tokens[..n];
    } else {
      assert tokens[..n] == tokens;
    }
  }

  lemma LastNests(front: seq<Token>, last: Token, tokens: seq<Token>)
    requires tokens == front + [last] && Nesting(tokens).Some?
    ensures Nesting(front).Some? && Nested(Nesting(front).value, last).Some?
  {
    NestingStep(front, last);
  }

  lemma NestsAt(tokens: seq<Token>, i: nat)
    requires i < |tokens| && Nesting(tokens).Some?
    ensures Nesting(tokens[..i]).Some? && Nested(Nesting(tokens[..i]).value, tokens[i]).Some?
  {
    PrefixNests(tokens, i + 1);
    LastNests(tokens[..i], tokens[i], tokens[..i + 1]);
  }

  lemma EventsAt(tokens: seq<Token>, i: nat)
    requires i < |tokens|
    ensures EventsOf(tokens)[..i + 1] == EventsOf(tokens[..i]) + [EventOf(tokens[i])]
  {
  }

  lemma RewrittenLink(front: seq<Token>, t: Token, unescape: string -> string)
    requires Unescapes(unescape) && StableLinks(front, unescape) && !StableLink(t, unescape)
    requires Nesting(front).Some? && Nested(Nesting(front).value, t).Some?
    ensures var link := Open(ATag, SafeHref(t.href, unescape));
            link != t && Fed(EventsOf(front) + [EventOf(t)], unescape).out == front + [link]
  {
    FedBack(front, unescape);
    OpenTagsArePaired(front);
    HandledBack(front, Nesting(front).value, t, unescape);
    FedOneMore(EventsOf(front), EventOf(t), unescape);
    CleanedStaysSafe(t.href.value, unescape);
  }

  /** The first link target with a reference is rewritten, and nothing later can undo that. */
  lemma UnstableLinkDrifts(tokens: seq<Token>, i: nat, unescape: string -> string)
    requires Unescapes(unescape)
    requires IsRich(tokens) && i < |tokens| && !StableLink(tokens[i], unescape)
    requires forall j | 0 <= j < i :: StableLink(tokens[j], unescape)
    ensures Sanitized(EventsOf(tokens), unescape) != tokens
  {
    var front, t := tokens[..i], tokens[i];
    NestsAt(tokens, i);
    RewrittenLink(front, t, unescape);
    EventsAt(tokens, i);
    SanitizedGrows(EventsOf(tokens), i + 1, unescape);
    var link := Open(ATag, SafeHref(t.href, unescape));
    assert (front + [link])[i] == link;
  }

  /**
   On its own language the sanitizer is the identity exactly when no link target holds a
   character reference; otherwise sanitizing again rewrites the first such target.
   */
  lemma SanitizerIsProjectionIff(tokens: seq<Token>, unescape: string -> string)
    requires Unescapes(unescape) && IsRich(tokens)
    ensures Sanitized(EventsOf(tokens), unescape) == tokens <==> StableLinks(tokens, unescape)
  {
    if StableLinks(tokens, unescape) {
      FedBack(tokens, unescape);
    } else {
      var i := FirstUnstable(tokens, unescape);
      UnstableLinkDrifts(tokens, i, unescape);
    }
  }

  lemma {:induction false} FirstUnstable(tokens: seq<Token>, unescape: string -> string) returns (i: nat)
    requires !StableLinks(tokens, unescape)
    ensures i < |tokens| && !StableLink(tokens[i], unescape) && forall j | 0 <= j < i :: StableLink(tokens[j], unescape)
  {
    var front := tokens[..|tokens| - 1];
    if StableLinks(front, unescape) {
      i := |tokens| - 1;
      assert forall j | 0 <= j < i :: tokens[j] == front[j] && front[j] in front;
      assert tokens == front + [tokens[i]];
    } else {
      i := FirstUnstable(front, unescape);
    }
  }

  // ---- cleaning a target that is clean already ----

  lemma {:induction false} WithoutNoiseShrinks(s: string)
    ensures |WithoutNoise(s)| <= |s|
  {
    if s != "" {
      WithoutNoiseShrinks(s[1..]);
    }
  }

  lemma SchemeIsPlain(p: string, scheme: string)
    requires StartsWithIgnoringCase(p, scheme) && |p| == |scheme| && scheme in {"http://", "https://", "mailto:"}
    ensures '&' !in p && forall i | 0 <= i < |p| :: !IsNoise(p[i])
  {
    forall i | 0 <= i < |p|
      ensures p[i] != '&' && !IsNoise(p[i])
    {
      assert MatchesLetter(p[i], scheme[i]);
      assert scheme[i] == ':' || scheme[i] == '/' || 'a' <= scheme[i] <= 'z';
    }
  }

  lemma SchemeSurvives(href: string, scheme: string, unescape: string -> string)
    requires Unescapes(unescape)
    requires StartsWithIgnoringCase(href, scheme) && scheme in {"http://", "https://", "mailto:"}
    ensures StartsWithIgnoringCase(WithoutNoise(unescape(href)), scheme)
  {
    var p, s := href[..|scheme|], href[|scheme|..];
    SchemeIsPlain(p, scheme);
    assert href == p + s;
    UnescapeKeepsPrefix(p, s, unescape);
    NoiseOfConcat(p, unescape(s));
    NoiseFree(p);
  }

  /** A clean target stays a target, and stays itself exactly when it holds no reference. */
  lemma CleanedStaysSafe(href: string, unescape: string -> string)
    requires Unescapes(unescape) && SafeScheme(href) && WithoutNoise(href) == href
    ensures SafeHref(Some(href), unescape).Some?
    ensures SafeHref(Some(href), unescape) == Some(href) <==> unescape(href) == href
  {
    if StartsWithIgnoringCase(href, "http://") {
      SchemeSurvives(href, "http://", unescape);
    } else if StartsWithIgnoringCase(href, "https://") {
      SchemeSurvives(href, "https://", unescape);
    } else {
      SchemeSurvives(href, "mailto:", unescape);
    }
    WithoutNoiseShrinks(unescape(href));
  }

  // ---- targets that drift ----

  function Link(target: string): seq<Token> {
    [Open(ATag, Some(target)), Text("t"), Close(ATag)]
  }

  function LinkEvents(target: string): seq<Event> {
    [StartTag(ATag, Some(target)), Data("t"), EndTag(ATag)]
  }

  lemma LinkOpens(raw: string, target: string, unescape: string -> string)
    requires SafeHref(Some(raw), unescape) == Some(target)
    ensures Fed([StartTag(ATag, Some(raw)), Data("t")], unescape)
            == Machine([Open(ATag, Some(target)), Text("t")], [ATag])
  {
    var start, open := StartTag(ATag, Some(raw)), Open(ATag, Some(target));
    FedOneMore([], start, unescape);
    assert [] + [start] == [start] && [] + [open] == [open] && [] + [ATag] == [ATag];
    FedOneMore([start], Data("t"), unescape);
    assert [start] + [Data("t")] == [start, Data("t")] && [open] + [Text("t")] == [open, Text("t")];
  }

  lemma LinkFromParser(raw: string, target: string, unescape: string -> string)
    requires SafeHref(Some(raw), unescape) == Some(target)
    ensures Sanitized(LinkEvents(raw), unescape) == Link(target)
    ensures IsRich(Link(target))
  {
    var begun := [StartTag(ATag, Some(raw)), Data("t")];
    LinkOpens(raw, target, unescape);
    FedOneMore(begun, EndTag(ATag), unescape);
    LinkCloses(Machine([Open(ATag, Some(target)), Text("t")], [ATag]), unescape);
    assert begun + [EndTag(ATag)] == LinkEvents(raw);
    assert [Open(ATag, Some(target)), Text("t")] + [Close(ATag)] == Link(target);
    assert Link(target) + [] == Link(target);
    SanitizedIsRich(LinkEvents(raw), unescape);
  }

  lemma LinkCloses(m: Machine, unescape: string -> string)
    requires m.open == [ATag]
    ensures Handled(m, EndTag(ATag), unescape) == Machine(m.out + [Close(ATag)], [])
  {
    LastOpenIsTop([ATag]);
    assert [ATag][..0] == [];
  }

  /** A target that is clean but for the references it may hold. */
  predicate CleanTarget(target: string) {
    SafeScheme(target) && forall i | 0 <= i < |target| :: !IsNoise(target[i])
  }

  lemma ReadTarget(raw: string, target: string, unescape: string -> string)
    requires raw != "" && unescape(raw) == target && CleanTarget(target)
    ensures SafeHref(Some(raw), unescape) == Some(target)
  {
    NoiseFree(target);
  }

  lemma CleanWithTail(head: string, tail: string)
    requires CleanTarget(head) && forall i | 0 <= i < |tail| :: !IsNoise(tail[i])
    ensures CleanTarget(head + tail)
  {
    var target := head + tail;
    assert forall i | 0 <= i < |head| :: target[i] == head[i];
    assert forall i | |head| <= i < |target| :: target[i] == tail[i - |head|];
  }

  lemma ReadsAmpersand(head: string, tail: string, unescape: string -> string)
    requires Unescapes(unescape) && '&' !in head && '&' !in tail
    ensures unescape(head + ("&amp;" + tail)) == head + ("&" + tail)
  {
    UnescapeKeepsPrefix(head, "&amp;" + tail, unescape);
    assert EscapeChar('&', false) == "&amp;";
    UnescapeKeepsPrefix(tail, "", unescape);
    EmptyHoldsNoReference(unescape);
    assert tail + "" == tail;
  }

  lemma TargetDrifts(once: string, twice: string, unescape: string -> string)
    requires CleanTarget(once) && CleanTarget(twice) && unescape(once) == twice && |once| != |twice|
    ensures IsRich(Link(once))
    ensures Sanitized(EventsOf(Link(once)), unescape) == Link(twice) != Link(once)
  {
    var keep := (s: string) => s;
    ReadTarget(once, once, keep);
    LinkFromParser(once, once, keep);
    ReadTarget(once, twice, unescape);
    LinkFromParser(once, twice, unescape);
    assert EventsOf(Link(once)) == LinkEvents(once);
    assert Link(once)[0] != Link(twice)[0];
  }

  lemma StoresTarget(raw: string, target: string, unescape: string -> string)
    requires raw != "" && unescape(raw) == target && CleanTarget(target)
    ensures Sanitized(LinkEvents(raw), unescape) == Link(target)
  {
    ReadTarget(raw, target, unescape);
    LinkFromParser(raw, target, unescape);
  }

  /** One layer of escaping after the other. */
  lemma ReadsLayers(head: string, tail: string, unescape: string -> string)
    requires Unescapes(unescape) && '&' !in head && '&' !in tail
    ensures unescape(head + ("&amp;" + ("amp;" + tail))) == head + ("&amp;" + tail)
    ensures unescape(head + ("&amp;" + tail)) == head + ("&" + tail)
  {
    ReadsAmpersand(head, "amp;" + tail, unescape);
    ReadsAmpersand(head, tail, unescape);
    Associative("&", "amp;", tail);
  }

  lemma LayersAreClean(head: string, tail: string)
    requires CleanTarget(head) && forall i | 0 <= i < |tail| :: !IsNoise(tail[i])
    ensures CleanTarget(head + ("&amp;" + tail)) && CleanTarget(head + ("&" + tail))
  {
    CleanWithTail(head, "&amp;" + tail);
    CleanWithTail(head, "&" + tail);
  }

  /**
   An ampersand escaped once more than it should be: saving a link reads one layer, and saving what
   was stored reads the next.
   */
  lemma EscapedTargetDrifts(head: string, tail: string, unescape: string -> string)
    requires Unescapes(unescape) && CleanTarget(head) && '&' !in head && '&' !in tail
    requires forall i | 0 <= i < |tail| :: !IsNoise(tail[i])
    ensures var once := Sanitized(LinkEvents(head + ("&amp;" + ("amp;" + tail))), unescape);
            && once == Link(head + ("&amp;" + tail)) && IsRich(once)
            && Sanitized(EventsOf(once), unescape) == Link(head + ("&" + tail)) != once
  {
    var raw, once, twice := head + ("&amp;" + ("amp;" + tail)), head + ("&amp;" + tail), head + ("&" + tail);
    ReadsLayers(head, tail, unescape);
    LayersAreClean(head, tail);
    StoresTarget(raw, once, unescape);
    TargetDrifts(once, twice, unescape);
  }

  /** Two parameters of a query string can do it: a bare `&section` is a section sign and `ion`. */
  lemma QueryStringDrifts(head: string, unescape: string -> string)
    requires Unescapes(unescape) && CleanTarget(head) && '&' !in head
    requires unescape("&section=2") == "\U{a7}ion=2"
    ensures var stored := Link(head + "&section=2");
            && IsRich(stored)
            && Sanitized(EventsOf(stored), unescape) == Link(head + "\U{a7}ion=2") != stored
  {
    UnescapeKeepsPrefix(head, "&section=2", unescape);
    CleanWithTail(head, "&section=2");
    CleanWithTail(head, "\U{a7}ion=2");
    TargetDrifts(head + "&section=2", head + "\U{a7}ion=2", unescape);
  }

  /** Such heads are ordinary. */
  lemma OrdinaryHead()
    ensures CleanTarget("http://x/?a=1") && '&' !in "http://x/?a=1"
  {
    assert CleanTarget("http://");
    CleanWithTail("http://", "x/?a=1");
    assert "http://" + "x/?a=1" == "http://x/?a=1";
  }
}
