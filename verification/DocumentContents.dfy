/** What a stored document holds of the submitted one, block by block and field by field. */
module DocumentContents {
  import opened Base
  import opened EditorDocument
  import opened EditorText
  import opened HtmlText

  function TextOf(value: Option<string>): string {
    if value.Some? then value.value else ""
  }

  /** The first `n` characters, or all of them. */
  predicate IsCut(text: string, n: nat, cut: string) {
    cut <= text && |cut| == Min(n, |text|)
  }

  /** The block says something, so it is stored. */
  predicate Carries(b: RawBlock, codec: Codec) {
    b.RawBlock? &&
    match b.kind
    case UnknownKind => false
    case DelimiterKind => true
    case CodeKind => !Blank(Take(TextOf(b.code), 20000))
    case ListKind => ListItems(b.items, 0, codec) != []
    case _ => codec.both(TextOf(b.text)).1 != ""
  }

  /** One line of a list: two spaces for each level, the marker, and the item's text. */
  predicate IsLine(line: string, item: ListItem, ordered: bool) {
    var marker := if ordered then "1. " else "- ";
    && |line| == 2 * item.depth + |marker| + |item.plain|
    && (forall i | 0 <= i < 2 * item.depth :: line[i] == ' ')
    && line[2 * item.depth..] == marker + item.plain
  }

  ghost predicate AreLines(lines: seq<string>, items: seq<ListItem>, ordered: bool) {
    |lines| == |items| && forall i | 0 <= i < |items| :: IsLine(lines[i], items[i], ordered)
  }

  /** The parts in order, with the separator between each two. */
  lemma JoinIs(parts: seq<string>, part: string, separator: string)
    ensures Join([], separator) == "" && Join([part], separator) == part
    ensures parts != [] ==> Join(parts + [part], separator) == Join(parts, separator) + separator + part
  {
    assert (parts + [part])[..|parts|] == parts;
  }

  /** The stored block is of its source's kind, and each of its fields is made of that very field. */
  ghost predicate StoredAs(b: RawBlock, c: Cleaned, codec: Codec)
    requires b.RawBlock?
  {
    var (rich, plain) := codec.both(TextOf(b.text));
    match b.kind
    case UnknownKind => false
    case DelimiterKind => c == Cleaned(Delimiter, "---")
    case CodeKind => c.stored.Code? && IsCut(TextOf(b.code), 20000, c.stored.code) && c.text == c.stored.code
    case HeaderKind =>
      && c.stored.Header? && c.stored.text == rich && c.text == plain
      && c.stored.level == if b.level.Some? && 1 <= b.level.value <= 6 then b.level.value else 2
    case ParagraphKind => c == Cleaned(Paragraph(rich), plain)
    case QuoteKind =>
      var (captionRich, captionPlain) := codec.both(TextOf(b.caption));
      && c.stored.Quote? && c.stored.text == rich && c.stored.caption == captionRich
      && c.text == if captionPlain == "" then plain else plain + "\n— " + captionPlain
    case ListKind =>
      var items := ListItems(b.items, 0, codec);
      && c.stored.List? && c.stored.ordered == b.ordered && |c.stored.items| == |items|
      && (forall i | 0 <= i < |items| :: c.stored.items[i] == items[i].rich)
      && exists lines :: AreLines(lines, items, b.ordered) && c.text == Join(lines, "\n")
  }

  lemma {:induction false} IndentIs(depth: nat)
    ensures |Indent(depth)| == 2 * depth && forall i | 0 <= i < 2 * depth :: Indent(depth)[i] == ' '
  {
    if depth > 0 {
      IndentIs(depth - 1);
    }
  }

  lemma LineIs(item: ListItem, ordered: bool)
    ensures IsLine(Line(item, ordered), item, ordered)
  {
    var marker := if ordered then "1. " else "- ";
    IndentIs(item.depth);
    assert Marker(ordered) + " " == marker;
    assert Line(item, ordered) == Indent(item.depth) + (marker + item.plain);
  }

  lemma LinesAre(items: seq<ListItem>, ordered: bool)
    ensures AreLines(Lines(items, ordered), items, ordered)
  {
    forall i | 0 <= i < |items|
      ensures IsLine(Lines(items, ordered)[i], items[i], ordered)
    {
      LineIs(items[i], ordered);
    }
  }

  lemma BlockIsStored(b: RawBlock, codec: Codec)
    ensures CleanBlock(b, codec).Some? <==> Carries(b, codec)
    ensures Carries(b, codec) ==> StoredAs(b, CleanBlock(b, codec).value, codec)
  {
    if b.RawBlock? && b.kind.ListKind? {
      LinesAre(ListItems(b.items, 0, codec), b.ordered);
    }
  }

  /** Entry `i` of a flat list is one of the first 300 and says something. */
  predicate SaysItem(texts: seq<string>, codec: Codec, i: nat) {
    i < |texts| && i < 300 && codec.both(texts[i]).1 != ""
  }

  /** One item for each such entry, in order, with the markup and the text made of that very entry. */
  ghost predicate ItemsFrom(items: seq<ListItem>, texts: seq<string>, codec: Codec, places: seq<nat>) {
    && |places| == |items| && Increasing(places)
    && (forall n | 0 <= n < |items| :: SaysItem(texts, codec, places[n])
          && items[n] == ListItem(0, codec.both(texts[places[n]]).0, codec.both(texts[places[n]]).1))
    && (forall i: nat | SaysItem(texts, codec, i) :: i in places)
  }

  function Entries(texts: seq<string>): seq<Entry> {
    seq(|texts|, i requires 0 <= i < |texts| => Plain(texts[i]))
  }

  lemma {:induction false} FlatItems(texts: seq<string>, codec: Codec) returns (places: seq<nat>)
    requires |texts| <= 300
    ensures ItemsFrom(EntryItems(Entries(texts), 0, codec), texts, codec, places)
  {
    if texts == [] {
      places := [];
    } else {
      var front, last := texts[..|texts| - 1], texts[|texts| - 1];
      assert texts == front + [last] && Entries(texts)[..|front|] == Entries(front);
      places := FlatItems(front, codec);
      OneMoreItem(EntryItems(Entries(front), 0, codec), front, last, codec, places);
      if codec.both(last).1 != "" {
        places := places + [|front|];
      } else {
        assert EntryItems(Entries(texts), 0, codec) == EntryItems(Entries(front), 0, codec) + [];
      }
    }
  }

  lemma OneMoreItem(items: seq<ListItem>, front: seq<string>, last: string, codec: Codec, earlier: seq<nat>)
    requires |front| < 300 && ItemsFrom(items, front, codec, earlier)
    ensures var (rich, plain) := codec.both(last);
            if plain != ""
            then ItemsFrom(items + [ListItem(0, rich, plain)], front + [last], codec, earlier + [|front|])
            else ItemsFrom(items, front + [last], codec, earlier)
  {
    var texts, places := front + [last], earlier + [|front|];
    forall i: nat
      ensures i < |front| ==> (SaysItem(texts, codec, i) <==> SaysItem(front, codec, i))
    {
      assert i < |front| ==> texts[i] == front[i];
    }
    assert forall i | i in earlier :: i in places;
    assert places[|earlier|] == |front| && texts[|front|] == last;
    forall n | 0 <= n < |items|
      ensures SaysItem(texts, codec, earlier[n])
      ensures items[n] == ListItem(0, codec.both(texts[earlier[n]]).0, codec.both(texts[earlier[n]]).1)
    {
      assert SaysItem(front, codec, earlier[n]);
    }
  }

  /** A flat list stores the entries that say something, among the first 300, in order and at the top level. */
  lemma FlatListIsStored(texts: seq<string>, codec: Codec)
    ensures exists places :: ItemsFrom(ListItems(RawList(Entries(texts)), 0, codec), texts, codec, places)
  {
    var kept := Take(texts, 300);
    var places := FlatItems(kept, codec);
    assert Listed(RawList(Entries(texts))) == Entries(kept);
    forall i: nat
      ensures SaysItem(texts, codec, i) <==> SaysItem(kept, codec, i)
    {
      assert i < |kept| ==> kept[i] == texts[i];
    }
    assert ItemsFrom(ListItems(RawList(Entries(texts)), 0, codec), texts, codec, places);
  }

  /** The stored blocks are those that say something, in the order they were submitted. */
  ghost predicate StoredFrom(cleaned: seq<Cleaned>, blocks: seq<RawBlock>, codec: Codec, places: seq<nat>) {
    && |places| == |cleaned| && Increasing(places)
    && (forall n | 0 <= n < |cleaned| ::
          && places[n] < |blocks| && Carries(blocks[places[n]], codec)
          && StoredAs(blocks[places[n]], cleaned[n], codec))
    && (forall i: nat | i < |blocks| && Carries(blocks[i], codec) :: i in places)
  }

  lemma OneMoreStored(cleaned: seq<Cleaned>, front: seq<RawBlock>, last: RawBlock, codec: Codec, earlier: seq<nat>)
    requires StoredFrom(cleaned, front, codec, earlier)
    ensures if Carries(last, codec)
            then forall c | StoredAs(last, c, codec) ::
              StoredFrom(cleaned + [c], front + [last], codec, earlier + [|front|])
            else StoredFrom(cleaned, front + [last], codec, earlier)
  {
    var blocks, places := front + [last], earlier + [|front|];
    assert forall i | 0 <= i < |front| :: blocks[i] == front[i];
    assert forall i | i in earlier :: i in places;
    assert places[|earlier|] == |front| && blocks[|front|] == last;
  }

  lemma {:induction false} DocumentPlaces(blocks: seq<RawBlock>, codec: Codec) returns (places: seq<nat>)
    ensures StoredFrom(CleanedBlocks(blocks, codec), blocks, codec, places)
  {
    if blocks == [] {
      places := [];
    } else {
      var front, last := blocks[..|blocks| - 1], blocks[|blocks| - 1];
      assert blocks == front + [last];
      places := DocumentPlaces(front, codec);
      BlockIsStored(last, codec);
      OneMoreStored(CleanedBlocks(front, codec), front, last, codec, places);
      if Carries(last, codec) {
        places := places + [|front|];
      }
    }
  }

  /**
   Every submitted block that says something is stored, in order and as the kind it was, with the
   markup made of its own fields; a header keeps a level from 1 to 6 and a list keeps its style.
   */
  lemma DocumentIsStored(blocks: seq<RawBlock>, codec: Codec)
    ensures var cleaned := CleanedBlocks(blocks, codec);
            && |StoredOf(cleaned)| == |TextsOf(cleaned)| == |cleaned|
            && (forall n | 0 <= n < |cleaned| ::
                  StoredOf(cleaned)[n] == cleaned[n].stored && TextsOf(cleaned)[n] == cleaned[n].text)
            && exists places :: StoredFrom(cleaned, blocks, codec, places)
  {
    var places := DocumentPlaces(blocks, codec);
  }

  /** `sanitize`; `None` is a payload that is not a list. */
  method Sanitize(payload: Option<seq<RawBlock>>, html: Html)
    returns (r: Result<(seq<StoredBlock>, string), DocumentError>)
    requires Unescapes(html.unescape)
    ensures payload.None? <==> r == Err(Unreadable)
    ensures payload.Some? && |payload.value| > 500 <==> r == Err(TooManyBlocks)
    ensures payload.Some? && |payload.value| <= 500 ==>
              var cleaned := CleanedBlocks(payload.value, EditorCodec(html));
              var content := Strip(Join(TextsOf(cleaned), "\n\n"));
              && (r == Err(Empty) <==> content == "")
              && (r == Err(TooLong) <==> |content| > 400_000)
              && (r.Ok? ==> r.value == (StoredOf(cleaned), content))
              && exists places :: StoredFrom(cleaned, payload.value, EditorCodec(html), places)
    ensures r.Ok? && (forall b | b in payload.value :: BlockKept(b, EditorCodec(html))) ==>
              r.value.1 == Strip(Join(StoredTexts(r.value.0, EditorCodec(html)), "\n\n"))
  {
    var codec := EditorCodec(html);
    if payload.None? {
      return Err(Unreadable);
    }
    var blocks := payload.value;
    if |blocks| > MAX_BLOCKS {
      return Err(TooManyBlocks);
    }
    var stored: seq<StoredBlock> := [];
    var parts: seq<string> := [];
    for i := 0 to |blocks|
      invariant stored == StoredOf(CleanedBlocks(blocks[..i], codec))
      invariant parts == TextsOf(CleanedBlocks(blocks[..i], codec))
    {
      assert blocks[..i + 1][..i] == blocks[..i];
      var cleaned := CleanBlock(blocks[i], codec);
      if cleaned.None? {
        continue;
      }
      stored := stored + [cleaned.value.stored];
      parts := parts + [cleaned.value.text];
    }
    assert blocks[..|blocks|] == blocks;
    DocumentIsStored(blocks, codec);
    var content := Strip(Join(parts, "\n\n"));
    if content == "" {
      return Err(Empty);
    }
    if |content| > MAX_CONTENT_CHARS {
      return Err(TooLong);
    }
    r := Ok((stored, content));
    EditorCodecIsFaithful(html);
    TextsIff(blocks, codec);
  }
}
