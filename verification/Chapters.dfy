/** From a book's sections to narratable chapters: one per section, or one per printed chapter label when the sections
    are physical pages (crates/bookforge-audio/src/text.rs:66-265). */
module Chapters {
  import opened Options
  import opened Strings
  import opened Chunking
  import opened Planning
  import opened PlanProperties

  datatype SourceKind = PageFurniture | SourceHeading(level: nat) | OtherBlock

  /** A source block with its text already cleaned. */
  datatype SourceBlock = SourceBlock(kind: SourceKind, text: string)

  datatype Section = Section(title: Option<string>, blocks: seq<SourceBlock>)

  // ----- one chapter per section -----

  function PlainKind(kind: SourceKind): BlockKind {
    if kind.SourceHeading? then Heading(kind.level) else Paragraph
  }

  /** The narrated blocks of a section: the first heading with text becomes its title. */
  function SectionBlocks(blocks: seq<SourceBlock>, firstHeading: bool): seq<Block> {
    if blocks == [] then []
    else if blocks[0].kind.PageFurniture? || blocks[0].text == "" then SectionBlocks(blocks[1..], firstHeading)
    else if blocks[0].kind.SourceHeading? && firstHeading then [Block(Title, blocks[0].text)] + SectionBlocks(blocks[1..], false)
    else [Block(PlainKind(blocks[0].kind), blocks[0].text)] + SectionBlocks(blocks[1..], firstHeading)
  }

  function SectionTitle(fallback: string, section: Section): string {
    if section.title.Some? && Trim(section.title.value) != "" then Trim(section.title.value) else fallback
  }

  function SectionChapter(index: nat, section: Section, fallback: nat -> string): Chapter {
    Chapter(index, SectionTitle(fallback(index + 1), section), SectionBlocks(section.blocks, true))
  }

  method ChaptersFromSections(sections: seq<Section>, fallback: nat -> string) returns (chapters: seq<Chapter>)
    ensures |chapters| == |sections|
    ensures forall i | 0 <= i < |sections| :: chapters[i] == SectionChapter(i, sections[i], fallback)
  {
    chapters := [];
    for index := 0 to |sections|
      invariant |chapters| == index
      invariant forall i | 0 <= i < index :: chapters[i] == SectionChapter(i, sections[i], fallback)
    {
      var blocks := NarrateSection(sections[index].blocks);
      chapters := chapters + [Chapter(index, SectionTitle(fallback(index + 1), sections[index]), blocks)];
    }
  }

  method NarrateSection(source: seq<SourceBlock>) returns (blocks: seq<Block>)
    ensures blocks == SectionBlocks(source, true)
  {
    blocks := [];
    var firstHeading := true;
    for k := 0 to |source|
      invariant blocks + SectionBlocks(source[k..], firstHeading) == SectionBlocks(source, true)
    {
      assert source[k..][0] == source[k] && source[k..][1..] == source[k + 1..];
      if !source[k].kind.PageFurniture? && source[k].text != "" {
        var kind := PlainKind(source[k].kind);
        if source[k].kind.SourceHeading? && firstHeading {
          firstHeading := false;
          kind := Title;
        }
        Regroup(blocks, [Block(kind, source[k].text)], SectionBlocks(source[k + 1..], firstHeading));
        blocks := blocks + [Block(kind, source[k].text)];
      }
    }
  }

  ghost predicate IndicesArePositions(chapters: seq<Chapter>) {
    forall i | 0 <= i < |chapters| :: chapters[i].index == i
  }

  // ----- pages grouped around chapter labels -----

  /** The language heuristics, taken as they come. */
  datatype Heuristics = Heuristics(
    isFolio: string -> bool,
    isRomanFolio: string -> bool,
    labelOffset: string -> Option<nat>,
    isLabel: string -> bool,
    isTocLine: string -> bool,
    isFrontMatter: string -> bool,
    isFurnitureCandidate: string -> bool,
    lower: string -> string,
    shouldJoin: (string, string) -> bool)

  type Page = seq<SourceBlock>

  /** Text repeated on three or more pages is furniture. */
  type Occurrences = map<string, nat>

  ghost predicate OnPage(h: Heuristics, page: Page, text: string) {
    exists k :: 0 <= k < |page| && h.isFurnitureCandidate(page[k].text) && h.lower(page[k].text) == text
  }

  ghost function PagesWith(h: Heuristics, pages: seq<Page>, text: string): nat {
    if pages == [] then 0
    else PagesWith(h, pages[..|pages| - 1], text) + (if OnPage(h, pages[|pages| - 1], text) then 1 else 0)
  }

  function CountOf(occurrences: Occurrences, text: string): nat {
    if text in occurrences then occurrences[text] else 0
  }

  method CountOccurrences(h: Heuristics, pages: seq<Page>) returns (occurrences: Occurrences)
    ensures forall text :: CountOf(occurrences, text) == PagesWith(h, pages, text)
  {
    occurrences := map[];
    for k := 0 to |pages|
      invariant forall text :: CountOf(occurrences, text) == PagesWith(h, pages[..k], text)
    {
      var seen: set<string> := {};
      for j := 0 to |pages[k]|
        invariant forall text :: text in seen <==> OnPage(h, pages[k][..j], text)
      {
        var text := pages[k][j].text;
        OnePageBlockMore(h, pages[k], j);
        if h.isFurnitureCandidate(text) {
          seen := seen + {h.lower(text)};
        }
      }
      assert pages[k][..|pages[k]|] == pages[k];
      assert pages[..k + 1][..k] == pages[..k] && pages[..k + 1][k] == pages[k];
      occurrences := map text | text in occurrences.Keys + seen :: CountOf(occurrences, text) + (if text in seen then 1 else 0);
    }
    assert pages[..|pages|] == pages;
  }

  lemma OnePageBlockMore(h: Heuristics, page: Page, j: nat)
    requires j < |page|
    ensures forall text ::
      OnPage(h, page[..j + 1], text) <==> OnPage(h, page[..j], text) || (h.isFurnitureCandidate(page[j].text) && text == h.lower(page[j].text))
  {
    forall text
      ensures OnPage(h, page[..j + 1], text)
        <==> OnPage(h, page[..j], text) || (h.isFurnitureCandidate(page[j].text) && text == h.lower(page[j].text))
    {
      if OnPage(h, page[..j], text) {
        var k :| 0 <= k < j && h.isFurnitureCandidate(page[..j][k].text) && h.lower(page[..j][k].text) == text;
        assert page[..j + 1][k] == page[..j][k];
      }
      if h.isFurnitureCandidate(page[j].text) && text == h.lower(page[j].text) {
        assert page[..j + 1][j] == page[j];
      }
      if OnPage(h, page[..j + 1], text) {
        var k :| 0 <= k < j + 1 && h.isFurnitureCandidate(page[..j + 1][k].text) && h.lower(page[..j + 1][k].text) == text;
        assert k < j ==> page[..j][k] == page[..j + 1][k];
      }
    }
  }

  // ----- which texts are kept: a small machine of its own -----

  datatype Flags = Flags(printedToc: bool, romanFolio: bool, anyChapter: bool, anyBlock: bool)

  datatype Kept = Kept(text: string, opensChapter: bool, kind: SourceKind)

  /** The text from an embedded chapter label on. */
  function FromLabel(h: Heuristics, text: string): string {
    var offset := h.labelOffset(text);
    if offset.Some? && offset.value <= |text| then Trim(text[offset.value..]) else text
  }

  /** Whether a block is kept, and the flags after it. */
  function Sift(h: Heuristics, occurrences: Occurrences, flags: Flags, block: SourceBlock): (Flags, Option<Kept>) {
    if block.kind.PageFurniture? || block.text == "" || h.isFolio(block.text) then (flags, None)
    else if flags.printedToc && h.isRomanFolio(block.text) then (flags.(romanFolio := true), None)
    else
      var text := FromLabel(h, block.text);
      if h.isLabel(text) then
        (Flags(false, false, flags.anyChapter || flags.anyBlock, true), Some(Kept(text, true, block.kind)))
      else if !flags.anyChapter && h.isTocLine(text) then (flags.(printedToc := true, romanFolio := false), None)
      else if flags.printedToc && (h.isFrontMatter(text) || flags.romanFolio) then
        (flags.(printedToc := false, romanFolio := false, anyBlock := true), Some(Kept(text, false, block.kind)))
      else if flags.printedToc || CountOf(occurrences, h.lower(text)) >= 3 then (flags, None)
      else (flags.(anyBlock := true), Some(Kept(text, false, block.kind)))
  }

  function SiftPage(h: Heuristics, occurrences: Occurrences, flags: Flags, page: Page): (Flags, seq<Kept>)
    decreases |page|
  {
    if page == [] then (flags, [])
    else
      var (next, kept) := Sift(h, occurrences, flags, page[0]);
      var (last, rest) := SiftPage(h, occurrences, next, page[1..]);
      (last, (if kept.Some? then [kept.value] else []) + rest)
  }

  function SiftPages(h: Heuristics, occurrences: Occurrences, flags: Flags, pages: seq<Page>): seq<Kept>
    decreases |pages|
  {
    if pages == [] then []
    else
      var (next, kept) := SiftPage(h, occurrences, flags, pages[0]);
      kept + SiftPages(h, occurrences, next, pages[1..])
  }

  const AT_START := Flags(false, false, false, false)

  /** The kept texts cut before every label, each group read out with single spaces. */
  function Read(groups: seq<string>, kept: seq<Kept>): seq<string>
    decreases |kept|
  {
    if kept == [] then groups else Read(ReadOne(groups, kept[0]), kept[1..])
  }

  function ReadOne(groups: seq<string>, kept: Kept): seq<string> {
    if kept.opensChapter || groups == [] then groups + [kept.text]
    else groups[|groups| - 1 := groups[|groups| - 1] + " " + kept.text]
  }

  // ----- the grouping loop -----

  datatype Grouping = Grouping(
    chapters: seq<Chapter>,
    title: string,
    blocks: seq<Block>,
    flags: Flags,
    pageStart: nat)

  function KeptKind(kept: Kept): BlockKind {
    if kept.opensChapter then Title else PlainKind(kept.kind)
  }

  function Flush(g: Grouping): seq<Chapter> {
    if g.blocks == [] then g.chapters else g.chapters + [Chapter(|g.chapters|, g.title, g.blocks)]
  }

  function Push(g: Grouping, flags: Flags, kept: Kept): Grouping {
    if kept.opensChapter then
      Grouping(Flush(g), kept.text, [Block(Title, kept.text)], flags, if g.blocks == [] then g.pageStart else 0)
    else g.(blocks := g.blocks + [Block(KeptKind(kept), kept.text)], flags := flags)
  }

  function Take(h: Heuristics, occurrences: Occurrences, g: Grouping, block: SourceBlock): Grouping {
    var (flags, kept) := Sift(h, occurrences, g.flags, block);
    if kept.None? then g.(flags := flags) else Push(g, flags, kept.value)
  }

  function TakeBlocks(h: Heuristics, occurrences: Occurrences, g: Grouping, page: Page): Grouping
    decreases |page|
  {
    if page == [] then g else TakeBlocks(h, occurrences, Take(h, occurrences, g, page[0]), page[1..])
  }

  /** A paragraph goes on across the page break. */
  predicate Continues(h: Heuristics, g: Grouping) {
    && 0 < g.pageStart < |g.blocks|
    && g.blocks[g.pageStart - 1].kind == Paragraph && g.blocks[g.pageStart].kind == Paragraph
    && h.shouldJoin(g.blocks[g.pageStart - 1].text, g.blocks[g.pageStart].text)
  }

  function Joined(g: Grouping): Grouping
    requires 0 < g.pageStart < |g.blocks|
  {
    var left, right := g.blocks[g.pageStart - 1], g.blocks[g.pageStart];
    g.(blocks := g.blocks[..g.pageStart - 1] + [left.(text := left.text + " " + right.text)] + g.blocks[g.pageStart + 1..])
  }

  function TakePage(h: Heuristics, occurrences: Occurrences, g: Grouping, page: Page): Grouping {
    var taken := TakeBlocks(h, occurrences, g.(pageStart := |g.blocks|), page);
    if Continues(h, taken) then Joined(taken) else taken
  }

  function TakePages(h: Heuristics, occurrences: Occurrences, g: Grouping, pages: seq<Page>): Grouping
    decreases |pages|
  {
    if pages == [] then g else TakePages(h, occurrences, TakePage(h, occurrences, g, pages[0]), pages[1..])
  }

  function FrontTitle(bookTitle: Option<string>): string {
    if bookTitle.Some? && Trim(bookTitle.value) != "" then bookTitle.value else "Front matter"
  }

  function PdfChapters(h: Heuristics, occurrences: Occurrences, bookTitle: Option<string>, pages: seq<Page>): seq<Chapter> {
    Flush(TakePages(h, occurrences, Grouping([], FrontTitle(bookTitle), [], AT_START, 0), pages))
  }

  method ChaptersFromPdfPages(h: Heuristics, bookTitle: Option<string>, pages: seq<Page>) returns (chapters: seq<Chapter>, occurrences: Occurrences)
    ensures forall text :: CountOf(occurrences, text) == PagesWith(h, pages, text)
    ensures chapters == PdfChapters(h, occurrences, bookTitle, pages)
  {
    var counts := CountOccurrences(h, pages);
    occurrences := counts;
    chapters := [];
    var title := FrontTitle(bookTitle);
    var blocks: seq<Block> := [];
    var flags := AT_START;
    var pageStart: nat := 0;
    for k := 0 to |pages|
      invariant TakePages(h, counts, Grouping(chapters, title, blocks, flags, pageStart), pages[k..])
             == TakePages(h, counts, Grouping([], FrontTitle(bookTitle), [], AT_START, 0), pages)
    {
      ghost var before := Grouping(chapters, title, blocks, flags, pageStart);
      assert pages[k..][0] == pages[k] && pages[k..][1..] == pages[k + 1..];
      pageStart := |blocks|;
      for j := 0 to |pages[k]|
        invariant TakeBlocks(h, counts, Grouping(chapters, title, blocks, flags, pageStart), pages[k][j..])
               == TakeBlocks(h, counts, before.(pageStart := |before.blocks|), pages[k])
      {
        assert pages[k][j..][0] == pages[k][j] && pages[k][j..][1..] == pages[k][j + 1..];
        ghost var held := Grouping(chapters, title, blocks, flags, pageStart);
        var (next, kept) := Sift(h, counts, flags, pages[k][j]);
        flags := next;
        if kept.Some? {
          if kept.value.opensChapter {
            if blocks != [] {
              chapters := chapters + [Chapter(|chapters|, title, blocks)];
              blocks := [];
              pageStart := 0;
            }
            title := kept.value.text;
          }
          blocks := blocks + [Block(KeptKind(kept.value), kept.value.text)];
        }
        assert blocks == Take(h, counts, held, pages[k][j]).blocks;
      }
      if 0 < pageStart < |blocks| && blocks[pageStart - 1].kind == Paragraph && blocks[pageStart].kind == Paragraph
         && h.shouldJoin(blocks[pageStart - 1].text, blocks[pageStart].text) {
        var left, right := blocks[pageStart - 1], blocks[pageStart];
        blocks := blocks[..pageStart - 1] + [left.(text := left.text + " " + right.text)] + blocks[pageStart + 1..];
      }
    }
    if blocks != [] {
      chapters := chapters + [Chapter(|chapters|, title, blocks)];
    }
  }

  // ----- the shape of the chapters -----

  /** A title occurs only first. */
  ghost predicate TitleOnlyFirst(blocks: seq<Block>) {
    forall k | 0 < k < |blocks| :: blocks[k].kind != Title
  }

  ghost predicate StartsWithTitle(blocks: seq<Block>, title: string) {
    blocks != [] && blocks[0] == Block(Title, title)
  }

  ghost predicate WellShaped(chapters: seq<Chapter>) {
    && IndicesArePositions(chapters)
    && (forall i | 0 <= i < |chapters| :: chapters[i].blocks != [] && TitleOnlyFirst(chapters[i].blocks))
    && (forall i | 0 < i < |chapters| :: StartsWithTitle(chapters[i].blocks, chapters[i].title))
  }

  ghost predicate Inv(g: Grouping) {
    && WellShaped(g.chapters) && TitleOnlyFirst(g.blocks) && g.pageStart <= |g.blocks|
    && (g.chapters != [] ==> StartsWithTitle(g.blocks, g.title))
    && g.flags.anyChapter == (g.chapters != []) && g.flags.anyBlock == (g.blocks != [])
  }

  lemma TakeKeepsInv(h: Heuristics, occurrences: Occurrences, g: Grouping, block: SourceBlock)
    requires Inv(g)
    ensures Inv(Take(h, occurrences, g, block))
  {
  }

  lemma {:induction false} TakeBlocksKeepsInv(h: Heuristics, occurrences: Occurrences, g: Grouping, page: Page)
    requires Inv(g)
    ensures Inv(TakeBlocks(h, occurrences, g, page))
    decreases |page|
  {
    if page != [] {
      TakeKeepsInv(h, occurrences, g, page[0]);
      TakeBlocksKeepsInv(h, occurrences, Take(h, occurrences, g, page[0]), page[1..]);
    }
  }

  lemma JoinKeepsInv(g: Grouping)
    requires Inv(g) && 0 < g.pageStart < |g.blocks|
    requires g.blocks[g.pageStart - 1].kind == Paragraph
    ensures Inv(Joined(g))
  {
  }

  lemma {:induction false} TakePagesKeepsInv(h: Heuristics, occurrences: Occurrences, g: Grouping, pages: seq<Page>)
    requires Inv(g)
    ensures Inv(TakePages(h, occurrences, g, pages))
    decreases |pages|
  {
    if pages != [] {
      TakeBlocksKeepsInv(h, occurrences, g.(pageStart := |g.blocks|), pages[0]);
      var taken := TakeBlocks(h, occurrences, g.(pageStart := |g.blocks|), pages[0]);
      if Continues(h, taken) {
        JoinKeepsInv(taken);
      }
      TakePagesKeepsInv(h, occurrences, TakePage(h, occurrences, g, pages[0]), pages[1..]);
    }
  }

  /** Chapter indices are positions, no chapter is empty, a title is only ever first, and every chapter after the first
      begins with a title equal to its own. */
  lemma PdfChaptersAreWellShaped(h: Heuristics, occurrences: Occurrences, bookTitle: Option<string>, pages: seq<Page>)
    ensures WellShaped(PdfChapters(h, occurrences, bookTitle, pages))
    ensures DistinctIndices(PdfChapters(h, occurrences, bookTitle, pages))
  {
    TakePagesKeepsInv(h, occurrences, Grouping([], FrontTitle(bookTitle), [], AT_START, 0), pages);
  }

  // ----- what the chapters read out -----

  function Texts(blocks: seq<Block>): (r: seq<string>)
    ensures |r| == |blocks|
  {
    seq(|blocks|, k requires 0 <= k < |blocks| => blocks[k].text)
  }

  /** A chapter read out: its blocks with single spaces between them. */
  function Spoken(blocks: seq<Block>): string {
    JoinWith(Texts(blocks), " ")
  }

  function SpokenChapters(chapters: seq<Chapter>): seq<string> {
    seq(|chapters|, k requires 0 <= k < |chapters| => Spoken(chapters[k].blocks))
  }

  function SpokenSoFar(g: Grouping): seq<string> {
    SpokenChapters(Flush(g))
  }

  lemma SpokenOneMore(blocks: seq<Block>, block: Block)
    requires blocks != []
    ensures Spoken(blocks + [block]) == Spoken(blocks) + " " + block.text
  {
    assert Texts(blocks + [block]) == Texts(blocks) + [block.text];
    JoinConcat(Texts(blocks), [block.text], " ");
  }

  lemma SpokenAfterPush(g: Grouping, flags: Flags, kept: Kept)
    requires Inv(g)
    ensures SpokenSoFar(Push(g, flags, kept)) == ReadOne(SpokenSoFar(g), kept)
  {
    var t := Push(g, flags, kept);
    if kept.opensChapter || g.blocks == [] {
      assert Texts([Block(KeptKind(kept), kept.text)]) == [kept.text];
      assert t.blocks == [Block(KeptKind(kept), kept.text)];
      assert Flush(t) == Flush(g) + [Chapter(|Flush(g)|, t.title, [Block(KeptKind(kept), kept.text)])];
    } else {
      SpokenOneMore(g.blocks, Block(KeptKind(kept), kept.text));
    }
  }

  lemma SpokenAfterJoin(g: Grouping)
    requires 0 < g.pageStart < |g.blocks|
    ensures SpokenSoFar(Joined(g)) == SpokenSoFar(g)
  {
    var k := g.pageStart;
    JoinTwoTexts(Texts(g.blocks), k);
    assert Texts(Joined(g).blocks)
      == Texts(g.blocks)[..k - 1] + [Texts(g.blocks)[k - 1] + " " + Texts(g.blocks)[k]] + Texts(g.blocks)[k + 1..];
  }

  /** Joining two neighbours by a space does not change what is read out. */
  lemma JoinTwoTexts(texts: seq<string>, k: nat)
    requires 0 < k < |texts|
    ensures JoinWith(texts[..k - 1] + [texts[k - 1] + " " + texts[k]] + texts[k + 1..], " ") == JoinWith(texts, " ")
  {
    var a, b := texts[..k - 1], texts[k + 1..];
    SplitAroundPair(texts, k);
    SameJoin(a, [texts[k - 1], texts[k]], [texts[k - 1] + " " + texts[k]], b);
  }

  lemma SplitAroundPair(texts: seq<string>, k: nat)
    requires 0 < k < |texts|
    ensures texts == texts[..k - 1] + [texts[k - 1], texts[k]] + texts[k + 1..]
  {
  }

  lemma SameJoin(a: seq<string>, x: seq<string>, y: seq<string>, b: seq<string>)
    requires x != [] && y != [] && JoinWith(x, " ") == JoinWith(y, " ")
    ensures JoinWith(a + x + b, " ") == JoinWith(a + y + b, " ")
  {
    if a != [] {
      JoinConcat(a, x, " ");
      JoinConcat(a, y, " ");
    } else {
      assert a + x == x && a + y == y;
    }
    if b != [] {
      JoinConcat(a + x, b, " ");
      JoinConcat(a + y, b, " ");
    } else {
      assert a + x + b == a + x && a + y + b == a + y;
    }
  }

  lemma {:induction false} ReadConcat(groups: seq<string>, a: seq<Kept>, b: seq<Kept>)
    ensures Read(groups, a + b) == Read(Read(groups, a), b)
    decreases |a|
  {
    if a == [] {
      assert a + b == b;
    } else {
      assert (a + b)[1..] == a[1..] + b;
      ReadConcat(ReadOne(groups, a[0]), a[1..], b);
    }
  }

  lemma {:induction false} SpokenAfterBlocks(h: Heuristics, occurrences: Occurrences, g: Grouping, page: Page)
    requires Inv(g)
    ensures SpokenSoFar(TakeBlocks(h, occurrences, g, page)) == Read(SpokenSoFar(g), SiftPage(h, occurrences, g.flags, page).1)
    ensures TakeBlocks(h, occurrences, g, page).flags == SiftPage(h, occurrences, g.flags, page).0
    decreases |page|
  {
    if page != [] {
      var (flags, kept) := Sift(h, occurrences, g.flags, page[0]);
      var next := Take(h, occurrences, g, page[0]);
      var rest := SiftPage(h, occurrences, flags, page[1..]).1;
      TakeKeepsInv(h, occurrences, g, page[0]);
      SpokenAfterBlocks(h, occurrences, next, page[1..]);
      if kept.Some? {
        SpokenAfterPush(g, flags, kept.value);
        ReadConcat(SpokenSoFar(g), [kept.value], rest);
        assert Read(SpokenSoFar(g), [kept.value]) == ReadOne(SpokenSoFar(g), kept.value);
      } else {
        assert [] + rest == rest;
      }
    }
  }

  lemma {:induction false} SpokenAfterPages(h: Heuristics, occurrences: Occurrences, g: Grouping, pages: seq<Page>)
    requires Inv(g)
    ensures SpokenSoFar(TakePages(h, occurrences, g, pages)) == Read(SpokenSoFar(g), SiftPages(h, occurrences, g.flags, pages))
    decreases |pages|
  {
    if pages != [] {
      var start := g.(pageStart := |g.blocks|);
      var taken := TakeBlocks(h, occurrences, start, pages[0]);
      SpokenAfterBlocks(h, occurrences, start, pages[0]);
      TakeBlocksKeepsInv(h, occurrences, start, pages[0]);
      if Continues(h, taken) {
        SpokenAfterJoin(taken);
        JoinKeepsInv(taken);
      }
      var next := TakePage(h, occurrences, g, pages[0]);
      SpokenAfterPages(h, occurrences, next, pages[1..]);
      var (flags, kept) := SiftPage(h, occurrences, g.flags, pages[0]);
      ReadConcat(SpokenSoFar(g), kept, SiftPages(h, occurrences, flags, pages[1..]));
    }
  }

  /** The chapters read out exactly the kept texts, in order, cut before every label: joining across a page loses
      nothing and never crosses a chapter boundary. */
  lemma PdfChaptersReadWhatIsKept(h: Heuristics, occurrences: Occurrences, bookTitle: Option<string>, pages: seq<Page>)
    ensures SpokenChapters(PdfChapters(h, occurrences, bookTitle, pages)) == Read([], SiftPages(h, occurrences, AT_START, pages))
  {
    var g := Grouping([], FrontTitle(bookTitle), [], AT_START, 0);
    SpokenAfterPages(h, occurrences, g, pages);
    assert SpokenSoFar(g) == [];
  }
}
