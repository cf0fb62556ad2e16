/** A submitted block document: what is stored, the text written to `content`, and when the two agree. */
module EditorDocument {
  import opened Base
  import opened HtmlText
  import opened Sanitizer
  import opened EditorText
  import opened EditorFields

  const MAX_BLOCKS: nat := 500
  const MAX_LIST_ITEMS: nat := 300
  const MAX_LIST_DEPTH: nat := 4
  const MAX_CONTENT_CHARS: nat := 400000

  /** What stands where a list should stand. */
  datatype RawList = NotAList | RawList(entries: seq<Entry>)

  /** A list entry in either shape the editor sends. */
  datatype Entry = Plain(text: string) | Nested(content: Option<string>, items: RawList) | Junk

  /** `UnknownKind` is any `type` outside the allowlist. */
  datatype BlockKind = ParagraphKind | HeaderKind | ListKind | QuoteKind | CodeKind | DelimiterKind | UnknownKind

  datatype RawBlock =
    | NotABlock
    | RawBlock(kind: BlockKind, text: Option<string>, caption: Option<string>, level: Option<int>,
               code: Option<string>, ordered: bool, items: RawList)

  datatype StoredBlock =
    | Delimiter
    | Code(code: string)
    | Header(text: string, level: int)
    | Quote(text: string, caption: string)
    | List(ordered: bool, items: seq<string>)
    | Paragraph(text: string)

  datatype Cleaned = Cleaned(stored: StoredBlock, text: string)

  datatype DocumentError = Unreadable | TooManyBlocks | Empty | TooLong

  /** How one field is cleaned into markup and text, how markup reads back as text, and which fields survive the cap. */
  datatype Codec = Codec(both: string -> (string, string), plain: string -> string, kept: string -> bool)

  /** The editor's own. */
  function EditorCodec(html: Html): Codec {
    Codec(value => Both(value, html), rich => ToPlain(rich, html), value => SurvivesCap(value, html))
  }

  predicate Rereadable(rich: string, plain: string, codec: Codec) {
    && (codec.plain(rich) == plain || |codec.plain(rich)| < |plain|)
    && (plain != "" ==> codec.plain(rich) != "")
  }

  predicate FaithfulOn(codec: Codec, value: string) {
    var (rich, plain) := codec.both(value);
    Rereadable(rich, plain, codec) && (codec.plain(rich) == plain <==> codec.kept(value))
  }

  /**
   Re-reading gives the text of exactly the fields that survive, and a shorter one otherwise, but never
   loses all of it.
   */
  ghost predicate Faithful(codec: Codec) {
    forall value: string :: FaithfulOn(codec, value)
  }

  lemma EditorCodecIsFaithful(html: Html)
    requires Unescapes(html.unescape)
    ensures Faithful(EditorCodec(html))
  {
    forall value: string
      ensures FaithfulOn(EditorCodec(html), value)
    {
      BothAgreeIff(value, html);
    }
  }

  /** One field, which may be missing. */
  function Field(value: Option<string>, codec: Codec): (string, string) {
    codec.both(value.GetOr(""))
  }

  // ---- lists ----

  datatype ListItem = ListItem(depth: nat, rich: string, plain: string)

  function OwnItem(value: Option<string>, depth: nat, codec: Codec): seq<ListItem> {
    var (rich, plain) := Field(value, codec);
    if plain == "" then [] else [ListItem(depth, rich, plain)]
  }

  /** The entries of one list that are looked at. */
  function Listed(raw: RawList): seq<Entry> {
    if raw.NotAList? then [] else Take(raw.entries, MAX_LIST_ITEMS)
  }

  /** `_list_items`: entries in document order, each list cut at MAX_LIST_ITEMS, nothing below MAX_LIST_DEPTH. */
  function ListItems(raw: RawList, depth: nat, codec: Codec): seq<ListItem>
    decreases if depth > MAX_LIST_DEPTH then 0 else MAX_LIST_DEPTH + 1 - depth, 1, 0
  {
    if depth > MAX_LIST_DEPTH then [] else EntryItems(Listed(raw), depth, codec)
  }

  function EntryItems(entries: seq<Entry>, depth: nat, codec: Codec): seq<ListItem>
    requires depth <= MAX_LIST_DEPTH
    decreases MAX_LIST_DEPTH + 1 - depth, 0, |entries|
  {
    if entries == [] then []
    else EntryItems(entries[..|entries| - 1], depth, codec) + ItemsOf(entries[|entries| - 1], depth, codec)
  }

  function ItemsOf(entry: Entry, depth: nat, codec: Codec): seq<ListItem>
    requires depth <= MAX_LIST_DEPTH
    decreases MAX_LIST_DEPTH + 1 - depth, 0, 0
  {
    match entry
    case Plain(text) => OwnItem(Some(text), depth, codec)
    case Nested(content, items) => OwnItem(content, depth, codec) + ListItems(items, depth + 1, codec)
    case Junk => []
  }

  predicate Bounded(items: seq<ListItem>, depth: nat) {
    forall item | item in items :: depth <= item.depth <= MAX_LIST_DEPTH && item.plain != ""
  }

  /** Every stored item says something and sits at one of the allowed depths. */
  lemma {:induction false} DepthsAreBounded(raw: RawList, depth: nat, codec: Codec)
    ensures Bounded(ListItems(raw, depth, codec), depth)
    decreases if depth > MAX_LIST_DEPTH then 0 else MAX_LIST_DEPTH + 1 - depth, 1, 0
  {
    if depth <= MAX_LIST_DEPTH {
      EntryDepthsAreBounded(Listed(raw), depth, codec);
    }
  }

  lemma {:induction false} EntryDepthsAreBounded(entries: seq<Entry>, depth: nat, codec: Codec)
    requires depth <= MAX_LIST_DEPTH
    ensures Bounded(EntryItems(entries, depth, codec), depth)
    decreases MAX_LIST_DEPTH + 1 - depth, 0, |entries|
  {
    if entries != [] {
      var before := EntryItems(entries[..|entries| - 1], depth, codec);
      EntryDepthsAreBounded(entries[..|entries| - 1], depth, codec);
      match entries[|entries| - 1]
      case Plain(text) => BoundedTogether(before, OwnItem(Some(text), depth, codec), depth);
      case Nested(content, items) =>
        DepthsAreBounded(items, depth + 1, codec);
        BoundedTogether(OwnItem(content, depth, codec), ListItems(items, depth + 1, codec), depth);
        BoundedTogether(before, OwnItem(content, depth, codec) + ListItems(items, depth + 1, codec), depth);
      case Junk => BoundedTogether(before, [], depth);
    }
  }

  lemma BoundedTogether(a: seq<ListItem>, b: seq<ListItem>, depth: nat)
    requires Bounded(a, depth) && Bounded(b, depth)
    ensures Bounded(a + b, depth)
  {
  }

  // ---- what the depth limit drops ----

  /** One entry and everything it nests, however deep. */
  function WholeEntry(entry: Entry, depth: nat, codec: Codec): seq<ListItem>
    decreases entry, 1, 0
  {
    match entry
    case Plain(text) => OwnItem(Some(text), depth, codec)
    case Nested(content, items) =>
      OwnItem(content, depth, codec)
      + if items.NotAList? then [] else WholeFirst(entry, |Listed(items)|, depth + 1, codec)
    case Junk => []
  }

  /** The first `k` entries that `parent` lists, with everything they nest. */
  function WholeFirst(parent: Entry, k: nat, depth: nat, codec: Codec): seq<ListItem>
    requires parent.Nested? && parent.items.RawList? && k <= |parent.items.entries|
    decreases parent, 0, k
  {
    if k == 0 then []
    else WholeFirst(parent, k - 1, depth, codec) + WholeEntry(parent.items.entries[k - 1], depth, codec)
  }

  /** A whole list, flattened without a depth limit. */
  function WholeList(raw: RawList, codec: Codec): seq<ListItem> {
    if raw.NotAList? then [] else WholeFirst(Nested(None, raw), |Listed(raw)|, 0, codec)
  }

  function Shallow(items: seq<ListItem>): (r: seq<ListItem>)
    ensures |r| <= |items|
  {
    if items == [] then []
    else
      var front, last := Shallow(items[..|items| - 1]), items[|items| - 1];
      if last.depth <= MAX_LIST_DEPTH then front + [last] else front
  }

  lemma {:induction false} ShallowOfConcat(a: seq<ListItem>, b: seq<ListItem>)
    ensures Shallow(a + b) == Shallow(a) + Shallow(b)
  {
    if b == [] {
      assert a + b == a;
    } else {
      var front, last := b[..|b| - 1], b[|b| - 1];
      ShallowOfConcat(a, front);
      assert a + b == (a + front) + [last] && (a + b)[..|a + b| - 1] == a + front;
    }
  }

  lemma {:induction false} ShallowIsAllIff(items: seq<ListItem>)
    ensures Shallow(items) == items <==> forall item | item in items :: item.depth <= MAX_LIST_DEPTH
  {
    if items != [] {
      var front, last := items[..|items| - 1], items[|items| - 1];
      assert items == front + [last];
      ShallowIsAllIff(front);
    }
  }

  lemma ShallowOwnItem(value: Option<string>, depth: nat, codec: Codec)
    ensures Shallow(OwnItem(value, depth, codec)) ==
            if depth <= MAX_LIST_DEPTH then OwnItem(value, depth, codec) else []
  {
    var (rich, plain) := Field(value, codec);
    assert [ListItem(depth, rich, plain)][..0] == [];
  }

  lemma NestedIsShallow(content: Option<string>, rest: seq<ListItem>, items: RawList, depth: nat, codec: Codec)
    requires Shallow(rest) == ListItems(items, depth + 1, codec)
    ensures Shallow(OwnItem(content, depth, codec) + rest) ==
            if depth <= MAX_LIST_DEPTH then ItemsOf(Nested(content, items), depth, codec) else []
  {
    ShallowOwnItem(content, depth, codec);
    ShallowOfConcat(OwnItem(content, depth, codec), rest);
  }

  lemma {:induction false} EntryIsShallow(entry: Entry, depth: nat, codec: Codec)
    ensures Shallow(WholeEntry(entry, depth, codec)) ==
            if depth <= MAX_LIST_DEPTH then ItemsOf(entry, depth, codec) else []
    decreases entry, 1, 0
  {
    match entry
    case Plain(text) => ShallowOwnItem(Some(text), depth, codec);
    case Nested(content, NotAList) => NestedIsShallow(content, [], NotAList, depth, codec);
    case Nested(content, RawList(entries)) =>
      var k := |Listed(entry.items)|;
      FirstAreShallow(entry, k, depth + 1, codec);
      assert entries[..k] == Listed(entry.items);
      NestedIsShallow(content, WholeFirst(entry, k, depth + 1, codec), entry.items, depth, codec);
    case Junk =>
  }

  lemma OneMoreShallow(before: seq<ListItem>, more: seq<ListItem>, entries: seq<Entry>, k: nat, depth: nat,
                       codec: Codec)
    requires k < |entries|
    requires Shallow(before) == if depth <= MAX_LIST_DEPTH then EntryItems(entries[..k], depth, codec) else []
    requires Shallow(more) == if depth <= MAX_LIST_DEPTH then ItemsOf(entries[k], depth, codec) else []
    ensures Shallow(before + more) ==
            if depth <= MAX_LIST_DEPTH then EntryItems(entries[..k + 1], depth, codec) else []
  {
    ShallowOfConcat(before, more);
    assert entries[..k + 1][..k] == entries[..k];
  }

  lemma {:induction false} FirstAreShallow(parent: Entry, k: nat, depth: nat, codec: Codec)
    requires parent.Nested? && parent.items.RawList? && k <= |parent.items.entries|
    ensures Shallow(WholeFirst(parent, k, depth, codec)) ==
            if depth <= MAX_LIST_DEPTH then EntryItems(parent.items.entries[..k], depth, codec) else []
    decreases parent, 0, k
  {
    if k > 0 {
      var entries := parent.items.entries;
      var before, more := WholeFirst(parent, k - 1, depth, codec), WholeEntry(entries[k - 1], depth, codec);
      FirstAreShallow(parent, k - 1, depth, codec);
      EntryIsShallow(entries[k - 1], depth, codec);
      OneMoreShallow(before, more, entries, k - 1, depth, codec);
    }
  }

  /**
   The listed items are exactly the items of the whole list at most MAX_LIST_DEPTH deep, in order;
   so nothing is lost if and only if no entry with text lies deeper.
   */
  lemma DeeperTextIsDropped(raw: RawList, codec: Codec)
    ensures ListItems(raw, 0, codec) == Shallow(WholeList(raw, codec))
    ensures ListItems(raw, 0, codec) == WholeList(raw, codec) <==>
            forall item | item in WholeList(raw, codec) :: item.depth <= MAX_LIST_DEPTH
  {
    if raw.RawList? {
      FirstAreShallow(Nested(None, raw), |Listed(raw)|, 0, codec);
      assert raw.entries[..|Listed(raw)|] == Listed(raw);
    }
    ShallowIsAllIff(WholeList(raw, codec));
  }

  /** A text inside `n` further lists. */
  function Deep(text: string, n: nat): Entry {
    if n == 0 then Plain(text) else Nested(None, RawList([Deep(text, n - 1)]))
  }

  lemma {:induction false} WholeDeep(text: string, n: nat, depth: nat, codec: Codec)
    requires codec.both("").1 == "" && codec.both(text).1 != ""
    ensures WholeEntry(Deep(text, n), depth, codec) == OwnItem(Some(text), depth + n, codec)
    decreases n
  {
    if n > 0 {
      var entry := Deep(text, n);
      WholeDeep(text, n - 1, depth + 1, codec);
      assert Listed(entry.items) == entry.items.entries;
      assert WholeFirst(entry, 0, depth + 1, codec) == [];
      assert WholeFirst(entry, 1, depth + 1, codec) == [] + WholeEntry(Deep(text, n - 1), depth + 1, codec);
    }
  }

  lemma WholeOfOne(entry: Entry, codec: Codec)
    ensures WholeList(RawList([entry]), codec) == WholeEntry(entry, 0, codec)
  {
    var raw := RawList([entry]);
    var parent := Nested(None, raw);
    assert Listed(raw) == [entry];
    assert WholeFirst(parent, 0, 0, codec) == [];
    assert WholeFirst(parent, 1, 0, codec) == [] + WholeEntry(entry, 0, codec);
  }

  /** A text nested `n` deep is in the list, and is kept exactly up to the limit. */
  lemma DeepTextKeptIff(text: string, n: nat, codec: Codec)
    requires codec.both("").1 == "" && codec.both(text).1 != ""
    ensures var raw := RawList([Deep(text, n)]);
            && WholeList(raw, codec) == OwnItem(Some(text), n, codec) != []
            && ListItems(raw, 0, codec) == if n <= 4 then WholeList(raw, codec) else []
  {
    WholeDeep(text, n, 0, codec);
    WholeOfOne(Deep(text, n), codec);
    DeeperTextIsDropped(RawList([Deep(text, n)]), codec);
    ShallowOwnItem(Some(text), n, codec);
  }

  // ---- blocks ----

  function Join(parts: seq<string>, separator: string): string {
    if parts == [] then ""
    else if |parts| == 1 then parts[0]
    else Join(parts[..|parts| - 1], separator) + separator + parts[|parts| - 1]
  }

  function Indent(depth: nat): string {
    if depth == 0 then "" else "  " + Indent(depth - 1)
  }

  function Marker(ordered: bool): string {
    if ordered then "1." else "-"
  }

  function Line(item: ListItem, ordered: bool): string {
    Indent(item.depth) + Marker(ordered) + " " + item.plain
  }

  function Lines(items: seq<ListItem>, ordered: bool): seq<string> {
    seq(|items|, i requires 0 <= i < |items| => Line(items[i], ordered))
  }

  function Riches(items: seq<ListItem>): seq<string> {
    seq(|items|, i requires 0 <= i < |items| => items[i].rich)
  }

  function HeaderLevel(level: Option<int>): int {
    if level.Some? && 1 <= level.value <= 6 then level.value else 2
  }

  function QuoteText(text: string, caption: string): string {
    if caption == "" then text else text + "\n— " + caption
  }

  /** `_clean_block` */
  function CleanBlock(b: RawBlock, codec: Codec): Option<Cleaned> {
    if b.NotABlock? then None
    else match b.kind
      case UnknownKind => None
      case DelimiterKind => Some(Cleaned(Delimiter, "---"))
      case CodeKind =>
        var code := Take(b.code.GetOr(""), MAX_BLOCK_CHARS);
        if Blank(code) then None else Some(Cleaned(Code(code), code))
      case HeaderKind =>
        var (rich, plain) := Field(b.text, codec);
        if plain == "" then None else Some(Cleaned(Header(rich, HeaderLevel(b.level)), plain))
      case QuoteKind =>
        var (rich, plain) := Field(b.text, codec);
        var (captionRich, captionPlain) := Field(b.caption, codec);
        if plain == "" then None
        else Some(Cleaned(Quote(rich, captionRich), QuoteText(plain, captionPlain)))
      case ListKind =>
        var items := ListItems(b.items, 0, codec);
        if items == [] then None
        else Some(Cleaned(List(b.ordered, Riches(items)), Join(Lines(items, b.ordered), "\n")))
      case ParagraphKind =>
        var (rich, plain) := Field(b.text, codec);
        if plain == "" then None else Some(Cleaned(Paragraph(rich), plain))
  }

  /** A list that holds nothing but text nested too deep is dropped whole. */
  lemma TooDeepIsLost(text: string, n: nat, ordered: bool, codec: Codec)
    requires codec.both("").1 == "" && codec.both(text).1 != "" && n > MAX_LIST_DEPTH
    ensures var raw := RawList([Deep(text, n)]);
            && WholeList(raw, codec) == [ListItem(n, codec.both(text).0, codec.both(text).1)]
            && CleanBlock(RawBlock(ListKind, None, None, None, None, ordered, raw), codec).None?
  {
    DeepTextKeptIff(text, n, codec);
  }

  lemma PlainLetter()
    ensures Strip(TrimLineEnds("x")) == "x" && !Blank("x")
  {
    TidyIsFixed("x");
    assert "x"[0] == 'x';
  }

  lemma LetterFields(html: Html)
    requires Unescapes(html.unescape) && html.parse("x") == [Data("x")]
    ensures Both("", html).1 == "" && Both("x", html).1 == "x"
  {
    BothAgreeIff("", html);
    BothAgreeIff("x", html);
    PlainLetter();
    PlainFieldText("x", html);
  }

  /** One letter nested one list too deep has a text under the editor's own codec, and its block is dropped. */
  lemma FiveDeepIsLost(html: Html)
    requires Unescapes(html.unescape) && html.parse("x") == [Data("x")]
    ensures var raw := RawList([Deep("x", 5)]);
            && |WholeList(raw, EditorCodec(html))| == 1 && WholeList(raw, EditorCodec(html))[0].plain == "x"
            && CleanBlock(RawBlock(ListKind, None, None, None, None, false, raw), EditorCodec(html)).None?
  {
    LetterFields(html);
    TooDeepIsLost("x", 5, false, EditorCodec(html));
  }

  /** The flat text of a stored block, read from the stored markup alone. */
  function StoredText(b: StoredBlock, codec: Codec): string {
    match b
    case Delimiter => "---"
    case Code(code) => code
    case Header(text, _) => codec.plain(text)
    case Quote(text, caption) => QuoteText(codec.plain(text), codec.plain(caption))
    case List(ordered, items) => Join(StoredLines(items, ordered, codec), "\n")
    case Paragraph(text) => codec.plain(text)
  }

  function StoredLines(items: seq<string>, ordered: bool, codec: Codec): seq<string> {
    seq(|items|, i requires 0 <= i < |items| => Marker(ordered) + " " + codec.plain(items[i]))
  }

  // ---- when a block's text is what its stored markup says ----

  /** The field fits the cap or is cut behind a visible character. */
  predicate FieldKept(value: Option<string>, codec: Codec) {
    codec.kept(value.GetOr(""))
  }

  /** A list entry that survives the cap and nests nothing that is kept. */
  predicate EntryKept(entry: Entry, codec: Codec) {
    match entry
    case Plain(text) => FieldKept(Some(text), codec)
    case Nested(content, items) => FieldKept(content, codec) && ListItems(items, 1, codec) == []
    case Junk => true
  }

  /** Every field the block uses survives the cap, and no list entry nests another. */
  predicate BlockKept(b: RawBlock, codec: Codec) {
    b.RawBlock? ==>
      match b.kind
      case HeaderKind => FieldKept(b.text, codec)
      case ParagraphKind => FieldKept(b.text, codec)
      case QuoteKind => FieldKept(b.text, codec) && FieldKept(b.caption, codec)
      case ListKind => forall entry | entry in Listed(b.items) :: EntryKept(entry, codec)
      case _ => true
  }

  /** An item at the top level whose stored markup reads back as its text. */
  predicate ItemKept(item: ListItem, codec: Codec) {
    item.depth == 0 && codec.plain(item.rich) == item.plain
  }

  /** Re-reading an item's markup gives its text or a shorter one. */
  predicate Rereads(items: seq<ListItem>, codec: Codec) {
    forall item | item in items :: codec.plain(item.rich) == item.plain || |codec.plain(item.rich)| < |item.plain|
  }

  predicate AllKept(items: seq<ListItem>, codec: Codec) {
    forall item | item in items :: ItemKept(item, codec)
  }

  lemma OwnItemKeptIff(value: Option<string>, depth: nat, codec: Codec)
    requires Faithful(codec)
    ensures Rereads(OwnItem(value, depth, codec), codec)
    ensures depth == 0 ==> (AllKept(OwnItem(value, depth, codec), codec) <==> FieldKept(value, codec))
  {
    assert FaithfulOn(codec, value.GetOr(""));
    var (rich, plain) := Field(value, codec);
    if plain != "" {
      assert ListItem(depth, rich, plain) in OwnItem(value, depth, codec);
    }
  }

  lemma {:induction false} ItemsReread(raw: RawList, depth: nat, codec: Codec)
    requires Faithful(codec)
    ensures Rereads(ListItems(raw, depth, codec), codec)
    decreases if depth > MAX_LIST_DEPTH then 0 else MAX_LIST_DEPTH + 1 - depth, 1, 0
  {
    if depth <= MAX_LIST_DEPTH {
      EntriesReread(Listed(raw), depth, codec);
    }
  }

  lemma {:induction false} EntriesReread(entries: seq<Entry>, depth: nat, codec: Codec)
    requires Faithful(codec) && depth <= MAX_LIST_DEPTH
    ensures Rereads(EntryItems(entries, depth, codec), codec)
    decreases MAX_LIST_DEPTH + 1 - depth, 0, |entries|
  {
    if entries != [] {
      var before := EntryItems(entries[..|entries| - 1], depth, codec);
      EntriesReread(entries[..|entries| - 1], depth, codec);
      match entries[|entries| - 1]
      case Plain(text) =>
        OwnItemKeptIff(Some(text), depth, codec);
        RereadsTogether(before, OwnItem(Some(text), depth, codec), codec);
      case Nested(content, items) =>
        var own, nested := OwnItem(content, depth, codec), ListItems(items, depth + 1, codec);
        OwnItemKeptIff(content, depth, codec);
        ItemsReread(items, depth + 1, codec);
        RereadsTogether(own, nested, codec);
        RereadsTogether(before, own + nested, codec);
      case Junk => RereadsTogether(before, [], codec);
    }
  }

  lemma RereadsTogether(a: seq<ListItem>, b: seq<ListItem>, codec: Codec)
    requires Rereads(a, codec) && Rereads(b, codec)
    ensures Rereads(a + b, codec)
  {
  }

  lemma AllKeptTogether(a: seq<ListItem>, b: seq<ListItem>, codec: Codec)
    ensures AllKept(a + b, codec) <==> AllKept(a, codec) && AllKept(b, codec)
  {
    assert forall item | item in a :: item in a + b;
    assert forall item | item in b :: item in a + b;
  }

  lemma NestedNeverKept(items: RawList, codec: Codec)
    ensures AllKept(ListItems(items, 1, codec), codec) <==> ListItems(items, 1, codec) == []
  {
    DepthsAreBounded(items, 1, codec);
    var nested := ListItems(items, 1, codec);
    if nested != [] {
      assert nested[0] in nested;
    }
  }

  lemma {:induction false} EntriesKeptIff(entries: seq<Entry>, codec: Codec)
    requires Faithful(codec)
    ensures AllKept(EntryItems(entries, 0, codec), codec) <==>
            forall entry | entry in entries :: EntryKept(entry, codec)
  {
    if entries != [] {
      var front, last := entries[..|entries| - 1], entries[|entries| - 1];
      assert entries == front + [last];
      EntriesKeptIff(front, codec);
      EntryKeptIff(front, last, codec);
      assert forall entry | entry in front :: entry in entries;
    }
  }

  lemma EntryKeptIff(front: seq<Entry>, last: Entry, codec: Codec)
    requires Faithful(codec)
    ensures AllKept(EntryItems(front + [last], 0, codec), codec) <==>
            AllKept(EntryItems(front, 0, codec), codec) && EntryKept(last, codec)
  {
    assert (front + [last])[..|front|] == front;
    var before := EntryItems(front, 0, codec);
    match last
    case Plain(text) =>
      OwnItemKeptIff(Some(text), 0, codec);
      AllKeptTogether(before, OwnItem(Some(text), 0, codec), codec);
    case Nested(content, items) =>
      var own, nested := OwnItem(content, 0, codec), ListItems(items, 1, codec);
      OwnItemKeptIff(content, 0, codec);
      NestedNeverKept(items, codec);
      AllKeptTogether(own, nested, codec);
      AllKeptTogether(before, own + nested, codec);
    case Junk => AllKeptTogether(before, [], codec);
  }

  lemma {:induction false} JoinLength(a: seq<string>, b: seq<string>, separator: string)
    requires |a| == |b| && forall i | 0 <= i < |a| :: |a[i]| >= |b[i]|
    ensures |Join(a, separator)| >= |Join(b, separator)|
    ensures (exists i :: 0 <= i < |a| && |a[i]| > |b[i]|) ==> |Join(a, separator)| > |Join(b, separator)|
  {
    if |a| > 1 {
      JoinLength(a[..|a| - 1], b[..|b| - 1], separator);
      if i :| 0 <= i < |a| - 1 && |a[i]| > |b[i]| {
        assert |a[..|a| - 1][i]| > |b[..|b| - 1][i]|;
      }
    }
  }

  lemma {:induction false} IndentLength(depth: nat)
    ensures |Indent(depth)| == 2 * depth
  {
    if depth > 0 {
      IndentLength(depth - 1);
    }
  }

  /**
   The stored list is flat and reads back no longer than what was written, and as long only when every
   item is kept.
   */
  lemma ListTextIff(items: seq<ListItem>, ordered: bool, codec: Codec)
    requires Rereads(items, codec)
    ensures Join(Lines(items, ordered), "\n") == Join(StoredLines(Riches(items), ordered, codec), "\n") <==>
            AllKept(items, codec)
  {
    var written, stored := Lines(items, ordered), StoredLines(Riches(items), ordered, codec);
    forall i | 0 <= i < |items|
      ensures |written[i]| >= |stored[i]|
      ensures ItemKept(items[i], codec) ==> written[i] == stored[i]
      ensures !ItemKept(items[i], codec) ==> |written[i]| > |stored[i]|
    {
      assert items[i] in items;
      LineLength(items[i], ordered, codec);
    }
    if AllKept(items, codec) {
      assert forall i | 0 <= i < |items| :: items[i] in items;
      assert written == stored;
    } else {
      var item :| item in items && !ItemKept(item, codec);
      var i :| 0 <= i < |items| && items[i] == item;
      assert |written[i]| > |stored[i]|;
      JoinLength(written, stored, "\n");
    }
  }

  lemma LineLength(item: ListItem, ordered: bool, codec: Codec)
    requires codec.plain(item.rich) == item.plain || |codec.plain(item.rich)| < |item.plain|
    ensures var stored := Marker(ordered) + " " + codec.plain(item.rich);
            && |Line(item, ordered)| >= |stored|
            && (ItemKept(item, codec) ==> Line(item, ordered) == stored)
            && (!ItemKept(item, codec) ==> |Line(item, ordered)| > |stored|)
  {
    IndentLength(item.depth);
    assert item.depth == 0 ==> Indent(item.depth) + Marker(ordered) == Marker(ordered);
  }

  lemma QuoteTextIff(text: string, caption: string, text': string, caption': string)
    requires text' == text || |text'| < |text|
    requires caption' == caption || |caption'| < |caption|
    requires caption != "" ==> caption' != ""
    ensures QuoteText(text, caption) == QuoteText(text', caption') <==> text == text' && caption == caption'
  {
    var dash := "\n— ";
    assert caption != "" ==> |QuoteText(text, caption)| == |text| + |dash| + |caption|;
    assert caption' != "" ==> |QuoteText(text', caption')| == |text'| + |dash| + |caption'|;
  }

  lemma FieldTextIff(b: RawBlock, codec: Codec)
    requires Faithful(codec) && CleanBlock(b, codec).Some? && (b.kind.HeaderKind? || b.kind.ParagraphKind?)
    ensures CleanBlock(b, codec).value.text == StoredText(CleanBlock(b, codec).value.stored, codec) <==>
            FieldKept(b.text, codec)
  {
    assert FaithfulOn(codec, b.text.GetOr(""));
  }

  lemma QuoteBlockTextIff(b: RawBlock, codec: Codec)
    requires Faithful(codec) && CleanBlock(b, codec).Some? && b.kind.QuoteKind?
    ensures CleanBlock(b, codec).value.text == StoredText(CleanBlock(b, codec).value.stored, codec) <==>
            FieldKept(b.text, codec) && FieldKept(b.caption, codec)
  {
    assert FaithfulOn(codec, b.text.GetOr("")) && FaithfulOn(codec, b.caption.GetOr(""));
    var (rich, plain) := codec.both(b.text.GetOr(""));
    var (captionRich, captionPlain) := codec.both(b.caption.GetOr(""));
    QuoteTextIff(plain, captionPlain, codec.plain(rich), codec.plain(captionRich));
  }

  lemma ListKeptIff(raw: RawList, ordered: bool, codec: Codec)
    requires Faithful(codec)
    ensures var items := ListItems(raw, 0, codec);
            Join(Lines(items, ordered), "\n") == Join(StoredLines(Riches(items), ordered, codec), "\n") <==>
            forall entry | entry in Listed(raw) :: EntryKept(entry, codec)
  {
    ItemsReread(raw, 0, codec);
    ListTextIff(ListItems(raw, 0, codec), ordered, codec);
    EntriesKeptIff(Listed(raw), codec);
  }

  lemma ListBlockTextIff(b: RawBlock, codec: Codec)
    requires Faithful(codec) && CleanBlock(b, codec).Some? && b.kind.ListKind?
    ensures CleanBlock(b, codec).value.text == StoredText(CleanBlock(b, codec).value.stored, codec) <==>
            BlockKept(b, codec)
  {
    ListKeptIff(b.items, b.ordered, codec);
  }

  lemma CleanedTextIff(b: RawBlock, codec: Codec)
    requires Faithful(codec) && CleanBlock(b, codec).Some?
    ensures CleanBlock(b, codec).value.text == StoredText(CleanBlock(b, codec).value.stored, codec) <==>
            BlockKept(b, codec)
  {
    match b.kind
    case ListKind => ListBlockTextIff(b, codec);
    case QuoteKind => QuoteBlockTextIff(b, codec);
    case HeaderKind => FieldTextIff(b, codec);
    case ParagraphKind => FieldTextIff(b, codec);
    case _ =>
  }

  /**
   The text written for a block is what its stored markup says, exactly when every field it uses
   survives the cap and no list entry nests another.
   */
  lemma BlockTextIff(b: RawBlock, html: Html)
    requires Unescapes(html.unescape) && CleanBlock(b, EditorCodec(html)).Some?
    ensures var c := CleanBlock(b, EditorCodec(html)).value;
            c.text == StoredText(c.stored, EditorCodec(html)) <==> BlockKept(b, EditorCodec(html))
  {
    EditorCodecIsFaithful(html);
    CleanedTextIff(b, EditorCodec(html));
  }

  // ---- documents ----

  ghost function CleanedBlocks(blocks: seq<RawBlock>, codec: Codec): seq<Cleaned> {
    if blocks == [] then []
    else
      var before, last := CleanedBlocks(blocks[..|blocks| - 1], codec), CleanBlock(blocks[|blocks| - 1], codec);
      if last.Some? then before + [last.value] else before
  }

  ghost function StoredOf(cleaned: seq<Cleaned>): seq<StoredBlock> {
    seq(|cleaned|, i requires 0 <= i < |cleaned| => cleaned[i].stored)
  }

  ghost function TextsOf(cleaned: seq<Cleaned>): seq<string> {
    seq(|cleaned|, i requires 0 <= i < |cleaned| => cleaned[i].text)
  }

  ghost function StoredTexts(blocks: seq<StoredBlock>, codec: Codec): seq<string> {
    seq(|blocks|, i requires 0 <= i < |blocks| => StoredText(blocks[i], codec))
  }

  lemma {:induction false} TextsIff(blocks: seq<RawBlock>, codec: Codec)
    requires Faithful(codec)
    ensures TextsOf(CleanedBlocks(blocks, codec)) == StoredTexts(StoredOf(CleanedBlocks(blocks, codec)), codec) <==>
            forall b | b in blocks && CleanBlock(b, codec).Some? :: BlockKept(b, codec)
  {
    if blocks != [] {
      var front, last := blocks[..|blocks| - 1], blocks[|blocks| - 1];
      assert blocks == front + [last];
      TextsIff(front, codec);
      if CleanBlock(last, codec).Some? {
        CleanedTextIff(last, codec);
        OneMoreText(CleanedBlocks(front, codec), CleanBlock(last, codec).value, codec);
      }
    }
  }

  lemma OneMoreText(before: seq<Cleaned>, c: Cleaned, codec: Codec)
    ensures TextsOf(before + [c]) == StoredTexts(StoredOf(before + [c]), codec) <==>
            TextsOf(before) == StoredTexts(StoredOf(before), codec) && c.text == StoredText(c.stored, codec)
  {
    assert TextsOf(before + [c]) == TextsOf(before) + [c.text];
    assert StoredTexts(StoredOf(before + [c]), codec)
        == StoredTexts(StoredOf(before), codec) + [StoredText(c.stored, codec)];
    EqualAppended(TextsOf(before), StoredTexts(StoredOf(before), codec), c.text, StoredText(c.stored, codec));
  }

  lemma EqualAppended(a: seq<string>, b: seq<string>, x: string, y: string)
    requires |a| == |b|
    ensures a + [x] == b + [y] <==> a == b && x == y
  {
    assert (a + [x])[..|a|] == a && (b + [y])[..|b|] == b;
    assert (a + [x])[|a|] == x && (b + [y])[|b|] == y;
  }

  /**
   Block by block, the texts joined into `content` are what the stored document says, exactly when
   every stored block is kept.
   */
  lemma DocumentTextIff(blocks: seq<RawBlock>, html: Html)
    requires Unescapes(html.unescape)
    ensures var cleaned := CleanedBlocks(blocks, EditorCodec(html));
            TextsOf(cleaned) == StoredTexts(StoredOf(cleaned), EditorCodec(html)) <==>
            forall b | b in blocks && CleanBlock(b, EditorCodec(html)).Some? :: BlockKept(b, EditorCodec(html))
  {
    EditorCodecIsFaithful(html);
    TextsIff(blocks, EditorCodec(html));
  }
}
