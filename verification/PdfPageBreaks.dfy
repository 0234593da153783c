/** The blocks of a book printed page by page: page after page what is read out of it, and where a paragraph goes on
    across the page break (crates/bookforge-audio/src/text.rs:172-265). */
module PdfPageBreaks {
  import opened Options
  import opened Strings
  import opened Chunking
  import opened Planning
  import opened Chapters
  import opened PdfReading

  /** All blocks of all chapters in order. A title stands only at the begin of a chapter, and at the begin of each after
      the first, so this list and its titles are the chapters. */
  function AllBlocks(chapters: seq<Chapter>): seq<Block> {
    if chapters == [] then [] else AllBlocks(chapters[..|chapters| - 1]) + chapters[|chapters| - 1].blocks
  }

  /** The blocks read out of a page: titles for labels, headings for other headings, paragraphs for the rest. */
  function BlocksOf(h: Heuristics, page: Page, roles: seq<Role>): seq<Block>
    requires |roles| == |page|
  {
    if page == [] then [] else
      var kind := if roles[0].Label? then Title
                  else match page[0].kind case SourceHeading(level) => BlockKind.Heading(level) case _ => Paragraph;
      (if IsRead(roles[0]) then [Block(kind, TextOf(h, page[0]))] else []) + BlocksOf(h, page[1..], roles[1..])
  }

  predicate HasTitle(blocks: seq<Block>) {
    exists k :: 0 <= k < |blocks| && blocks[k].kind == Title
  }

  /** A page without a title whose first paragraph continues the last one before it. */
  predicate GoesOn(h: Heuristics, printed: seq<Block>, page: seq<Block>) {
    && printed != [] && page != [] && !HasTitle(page)
    && printed[|printed| - 1].kind == Paragraph && page[0].kind == Paragraph
    && h.shouldJoin(printed[|printed| - 1].text, page[0].text)
  }

  /** What is there when a page is added: only a paragraph that goes on is joined to the one before, by a space. */
  function PageAdded(h: Heuristics, printed: seq<Block>, page: seq<Block>): seq<Block> {
    if GoesOn(h, printed, page) then
      var last := printed[|printed| - 1];
      printed[..|printed| - 1] + [Block(Paragraph, last.text + " " + page[0].text)] + page[1..]
    else printed + page
  }

  // ----- blocks within a page -----

  function AllOf(g: Grouping): seq<Block> {
    AllBlocks(Chapters.Flush(g))
  }

  lemma AllOfChapters(chapters: seq<Chapter>, chapter: Chapter)
    ensures AllBlocks(chapters + [chapter]) == AllBlocks(chapters) + chapter.blocks
  {
    assert (chapters + [chapter])[..|chapters|] == chapters;
  }

  lemma AllOfIs(g: Grouping)
    ensures AllOf(g) == AllBlocks(g.chapters) + g.blocks
  {
    if g.blocks == [] {
      assert AllBlocks(g.chapters) + [] == AllBlocks(g.chapters);
    } else {
      AllOfChapters(g.chapters, Chapter(|g.chapters|, g.title, g.blocks));
    }
  }

  lemma PushAdds(g: Grouping, flags: Flags, kept: Kept)
    ensures AllOf(Push(g, flags, kept)) == AllOf(g) + [Block(KeptKind(kept), kept.text)]
  {
    var t, block := Push(g, flags, kept), Block(KeptKind(kept), kept.text);
    AllOfIs(g);
    AllOfIs(t);
    if kept.opensChapter {
      assert t.blocks == [block] && t.chapters == Chapters.Flush(g);
    } else {
      Regroup(AllBlocks(g.chapters), g.blocks, [block]);
    }
  }

  function KeptBlocks(kept: seq<Kept>): seq<Block> {
    if kept == [] then [] else [Block(KeptKind(kept[0]), kept[0].text)] + KeptBlocks(kept[1..])
  }

  /** Behind blocks of one page: what was there, then the page's own; a title leaves nothing to join. */
  ghost predicate Follows(g: Grouping, t: Grouping, own: seq<Block>) {
    && AllOf(t) == AllOf(g) + own
    && (HasTitle(own) ==> t.pageStart == 0)
    && (!HasTitle(own) ==> t.chapters == g.chapters && t.blocks == g.blocks + own && t.pageStart == g.pageStart)
  }

  lemma PushFollows(g: Grouping, flags: Flags, kept: Kept)
    requires g.blocks == [] ==> g.pageStart == 0
    ensures Follows(g, Push(g, flags, kept), [Block(KeptKind(kept), kept.text)])
    ensures Push(g, flags, kept).blocks != [] && (g.pageStart == 0 ==> Push(g, flags, kept).pageStart == 0)
  {
    PushAdds(g, flags, kept);
    var own := [Block(KeptKind(kept), kept.text)];
    if kept.opensChapter {
      assert own[0].kind == Title;
    }
  }

  lemma FollowsBoth(g: Grouping, t: Grouping, own: seq<Block>, u: Grouping, more: seq<Block>)
    requires Follows(g, t, own) && Follows(t, u, more) && (t.pageStart == 0 ==> u.pageStart == 0)
    ensures Follows(g, u, own + more)
  {
    var all := own + more;
    Regroup(AllOf(g), own, more);
    Regroup(g.blocks, own, more);
    if HasTitle(own) {
      var k :| 0 <= k < |own| && own[k].kind == Title;
      assert all[k].kind == Title;
    } else if HasTitle(more) {
      var k :| 0 <= k < |more| && more[k].kind == Title;
      assert all[|own| + k].kind == Title;
    }
  }

  lemma {:induction false} BlocksFollow(h: Heuristics, occurrences: Occurrences, g: Grouping, page: Page)
    requires g.blocks == [] ==> g.pageStart == 0
    ensures var t := TakeBlocks(h, occurrences, g, page);
      && Follows(g, t, KeptBlocks(SiftPage(h, occurrences, g.flags, page).1))
      && (g.pageStart == 0 ==> t.pageStart == 0)
    decreases |page|
  {
    if page == [] {
      assert AllOf(g) + [] == AllOf(g) && g.blocks + [] == g.blocks;
    } else {
      var (flags, kept) := Sift(h, occurrences, g.flags, page[0]);
      var next := Take(h, occurrences, g, page[0]);
      var rest := SiftPage(h, occurrences, flags, page[1..]).1;
      if kept.Some? {
        PushFollows(g, flags, kept.value);
        BlocksFollow(h, occurrences, next, page[1..]);
        FollowsBoth(g, next, [Block(KeptKind(kept.value), kept.value.text)], TakeBlocks(h, occurrences, next, page[1..]), KeptBlocks(rest));
        assert ([kept.value] + rest)[1..] == rest;
      } else {
        BlocksFollow(h, occurrences, next, page[1..]);
        assert AllOf(next) == AllOf(g);
        assert [] + rest == rest;
      }
    }
  }

  lemma {:induction false} KeptBlocksOf(h: Heuristics, page: Page, roles: seq<Role>)
    requires |roles| == |page|
    ensures KeptBlocks(KeptAll(h, page, roles)) == BlocksOf(h, page, roles)
  {
    if page != [] {
      KeptBlocksOf(h, page[1..], roles[1..]);
      var first, rest := KeptOf(h, page[0], roles[0]), KeptAll(h, page[1..], roles[1..]);
      if first == [] {
        assert first + rest == rest;
      } else {
        assert (first + rest)[1..] == rest;
      }
    }
  }

  // ----- the page break -----

  lemma NothingBefore(g: Grouping)
    requires Inv(g)
    ensures AllOf(g) == AllBlocks(g.chapters) + g.blocks && (AllOf(g) == [] <==> g.blocks == [])
    ensures g.blocks != [] ==> AllOf(g)[|AllOf(g)| - 1] == g.blocks[|g.blocks| - 1]
  {
    AllOfIs(g);
  }

  lemma ContinuesIff(h: Heuristics, printed: seq<Block>, blocks: seq<Block>, taken: Grouping, own: seq<Block>)
    requires printed == [] <==> blocks == []
    requires blocks != [] ==> printed[|printed| - 1] == blocks[|blocks| - 1]
    requires if HasTitle(own) then taken.pageStart == 0 else taken.blocks == blocks + own && taken.pageStart == |blocks|
    ensures Continues(h, taken) <==> GoesOn(h, printed, own)
  {
    if !HasTitle(own) {
      var n := |blocks|;
      assert n > 0 ==> taken.blocks[n - 1] == blocks[n - 1];
      assert own != [] ==> taken.blocks[n] == own[0];
    }
  }

  lemma BreakIsJoined(h: Heuristics, g: Grouping, taken: Grouping, own: seq<Block>)
    requires Inv(g) && g.pageStart == |g.blocks| && Follows(g, taken, own)
    ensures AllOf(if Continues(h, taken) then Joined(taken) else taken) == PageAdded(h, AllOf(g), own)
  {
    NothingBefore(g);
    ContinuesIff(h, AllOf(g), g.blocks, taken, own);
    if Continues(h, taken) {
      JoinInsideChapter(g, taken, own);
    }
  }

  lemma JoinedBlocks(taken: Grouping, blocks: seq<Block>, own: seq<Block>)
    requires blocks != [] && own != [] && taken.blocks == blocks + own && taken.pageStart == |blocks|
    requires blocks[|blocks| - 1].kind == Paragraph
    ensures Joined(taken).blocks
         == blocks[..|blocks| - 1] + [Block(Paragraph, blocks[|blocks| - 1].text + " " + own[0].text)] + own[1..]
  {
    var n := |blocks|;
    assert taken.blocks[..n - 1] == blocks[..n - 1] && taken.blocks[n + 1..] == own[1..];
  }

  lemma JoinInsideChapter(g: Grouping, taken: Grouping, own: seq<Block>)
    requires g.blocks != [] && own != [] && taken.chapters == g.chapters && taken.blocks == g.blocks + own && taken.pageStart == |g.blocks|
    requires g.blocks[|g.blocks| - 1].kind == Paragraph
    ensures var printed, last := AllOf(g), g.blocks[|g.blocks| - 1];
      && printed != []
      && AllOf(Joined(taken)) == printed[..|printed| - 1] + [Block(Paragraph, last.text + " " + own[0].text)] + own[1..]
  {
    var front, last := g.blocks[..|g.blocks| - 1], g.blocks[|g.blocks| - 1];
    AllOfIs(g);
    AllOfIs(Joined(taken));
    JoinedBlocks(taken, g.blocks, own);
    LastOfBoth(AllBlocks(g.chapters), g.blocks, [Block(Paragraph, last.text + " " + own[0].text)], own[1..]);
  }

  lemma LastOfBoth(chapters: seq<Block>, blocks: seq<Block>, merged: seq<Block>, rest: seq<Block>)
    requires blocks != []
    ensures var printed := chapters + blocks;
      chapters + (blocks[..|blocks| - 1] + merged + rest) == printed[..|printed| - 1] + merged + rest
  {
  }

  // ----- page by page -----

  lemma {:induction false} LastPage(h: Heuristics, occurrences: Occurrences, g: Grouping, pages: seq<Page>, page: Page)
    ensures TakePages(h, occurrences, g, pages + [page]) == TakePage(h, occurrences, TakePages(h, occurrences, g, pages), page)
    decreases |pages|
  {
    if pages == [] {
      assert [page][1..] == [] && pages + [page] == [page];
    } else {
      assert (pages + [page])[1..] == pages[1..] + [page];
      LastPage(h, occurrences, TakePage(h, occurrences, g, pages[0]), pages[1..], page);
    }
  }

  function Start(bookTitle: Option<string>): Grouping {
    Grouping([], FrontTitle(bookTitle), [], AT_START, 0)
  }

  /** One page more: the roles of its blocks, and what it adds. */
  lemma PageStep(h: Heuristics, occurrences: Occurrences, often: string -> bool, g: Grouping, page: Page, before: seq<Role>)
    returns (own: seq<Role>)
    requires Counts(h, occurrences, often) && Inv(g) && FlagsOf(g.flags, before)
    ensures AreRolesBehind(h, often, before, page, own)
    ensures var t := TakePage(h, occurrences, g, page);
      Inv(t) && FlagsOf(t.flags, before + own) && AllOf(t) == PageAdded(h, AllOf(g), BlocksOf(h, page, own))
  {
    var begun := g.(pageStart := |g.blocks|);
    var taken := TakeBlocks(h, occurrences, begun, page);
    own := PageGivesRoles(h, occurrences, often, g.flags, page, before);
    BlocksFollow(h, occurrences, begun, page);
    KeptBlocksOf(h, page, own);
    SpokenAfterBlocks(h, occurrences, begun, page);
    TakeBlocksKeepsInv(h, occurrences, begun, page);
    BreakIsJoined(h, begun, taken, BlocksOf(h, page, own));
    if Continues(h, taken) {
      JoinKeepsInv(taken);
    }
    assert AllOf(begun) == AllOf(g);
  }

  /** Behind the pages with these blocks, which have these roles, the grouping has come to `g`. */
  ghost predicate Reached(h: Heuristics, often: string -> bool, g: Grouping, blocks: seq<SourceBlock>, roles: seq<Role>) {
    Inv(g) && FlagsOf(g.flags, roles) && AreRolesBehind(h, often, [], blocks, roles)
  }

  lemma PageReached(h: Heuristics, occurrences: Occurrences, often: string -> bool, g: Grouping, blocks: seq<SourceBlock>, before: seq<Role>, page: Page)
    returns (own: seq<Role>)
    requires Counts(h, occurrences, often) && Reached(h, often, g, blocks, before)
    ensures |own| == |page| && Reached(h, often, TakePage(h, occurrences, g, page), blocks + page, before + own)
    ensures AllOf(TakePage(h, occurrences, g, page)) == PageAdded(h, AllOf(g), BlocksOf(h, page, own))
  {
    own := PageStep(h, occurrences, often, g, page, before);
    RolesOfLonger(h, often, blocks, before, page, own);
  }

  lemma {:induction false} PrintedSoFar(h: Heuristics, occurrences: Occurrences, often: string -> bool, bookTitle: Option<string>, pages: seq<Page>)
    returns (roles: seq<Role>)
    requires Counts(h, occurrences, often)
    ensures Reached(h, often, TakePages(h, occurrences, Start(bookTitle), pages), Flatten(pages), roles)
    decreases |pages|
  {
    if pages == [] {
      roles := [];
      NothingPrinted(h, often, bookTitle);
    } else {
      var front, last := pages[..|pages| - 1], pages[|pages| - 1];
      var before := PrintedSoFar(h, occurrences, often, bookTitle, front);
      assert front + [last] == pages;
      roles := PageReachedToo(h, occurrences, often, bookTitle, front, before, last);
    }
  }

  lemma NothingPrinted(h: Heuristics, often: string -> bool, bookTitle: Option<string>)
    ensures Reached(h, often, Start(bookTitle), [], [])
  {
  }

  lemma PageReachedToo(h: Heuristics, occurrences: Occurrences, often: string -> bool, bookTitle: Option<string>, front: seq<Page>,
                       before: seq<Role>, last: Page)
    returns (roles: seq<Role>)
    requires Counts(h, occurrences, often)
    requires Reached(h, often, TakePages(h, occurrences, Start(bookTitle), front), Flatten(front), before)
    ensures Reached(h, often, TakePages(h, occurrences, Start(bookTitle), front + [last]), Flatten(front + [last]), roles)
  {
    var own := PageReached(h, occurrences, often, TakePages(h, occurrences, Start(bookTitle), front), Flatten(front), before, last);
    roles := before + own;
    LastPage(h, occurrences, Start(bookTitle), front, last);
    BlocksOfLonger(front, last);
  }

  lemma BlocksOfLonger(pages: seq<Page>, page: Page)
    ensures Flatten(pages + [page]) == Flatten(pages) + page
  {
    FlattenConcat(pages, [page]);
    FlattenOne(page);
  }

  lemma RolesOfLonger(h: Heuristics, often: string -> bool, blocks: seq<SourceBlock>, before: seq<Role>, page: Page, own: seq<Role>)
    requires AreRolesBehind(h, often, [], blocks, before) && AreRolesBehind(h, often, before, page, own)
    ensures AreRolesBehind(h, often, [], blocks + page, before + own)
  {
    assert [] + before == before;
    RolesConcat(h, often, [], blocks, before, page, own);
  }

  /** The blocks of a book are those of its pages in turn: each page adds exactly what is read out of it, joined to the
      paragraph before it only where it goes on. */
  lemma PageAddsItsBlocks(h: Heuristics, occurrences: Occurrences, often: string -> bool, bookTitle: Option<string>, pages: seq<Page>, page: Page)
    returns (before: seq<Role>, own: seq<Role>)
    requires Counts(h, occurrences, often)
    ensures |own| == |page| && AreRoles(h, often, Flatten(pages) + page, before + own)
    ensures AllBlocks(PdfChapters(h, occurrences, bookTitle, pages + [page]))
         == PageAdded(h, AllBlocks(PdfChapters(h, occurrences, bookTitle, pages)), BlocksOf(h, page, own))
  {
    before := PrintedSoFar(h, occurrences, often, bookTitle, pages);
    own := PageReached(h, occurrences, often, TakePages(h, occurrences, Start(bookTitle), pages), Flatten(pages), before, page);
    LastPage(h, occurrences, Start(bookTitle), pages, page);
    FromTheFirst(h, often, Flatten(pages) + page, before + own);
  }

  /** No pages, no blocks. */
  lemma NoPagesNoBlocks(h: Heuristics, occurrences: Occurrences, bookTitle: Option<string>)
    ensures PdfChapters(h, occurrences, bookTitle, []) == []
  {
  }

  // ----- the first title -----

  /** The first chapter is called after its label, else after the book, else "Front matter". */
  ghost predicate FirstTitleIs(bookTitle: Option<string>, blocks: seq<Block>, title: string) {
    if blocks != [] && blocks[0].kind == Title then title == blocks[0].text
    else if bookTitle.Some? && Trim(bookTitle.value) != "" then title == bookTitle.value
    else title == "Front matter"
  }

  ghost predicate Titled(bookTitle: Option<string>, g: Grouping) {
    if g.chapters != [] then FirstTitleIs(bookTitle, g.chapters[0].blocks, g.chapters[0].title) && g.chapters[0].blocks != []
    else FirstTitleIs(bookTitle, g.blocks, g.title)
  }

  lemma {:induction false} BlocksKeepTitled(h: Heuristics, occurrences: Occurrences, bookTitle: Option<string>, g: Grouping, page: Page)
    requires Titled(bookTitle, g)
    ensures Titled(bookTitle, TakeBlocks(h, occurrences, g, page))
    decreases |page|
  {
    if page != [] {
      TakeKeepsTitled(h, occurrences, bookTitle, g, page[0]);
      BlocksKeepTitled(h, occurrences, bookTitle, Take(h, occurrences, g, page[0]), page[1..]);
    }
  }

  lemma TakeKeepsTitled(h: Heuristics, occurrences: Occurrences, bookTitle: Option<string>, g: Grouping, block: SourceBlock)
    requires Titled(bookTitle, g)
    ensures Titled(bookTitle, Take(h, occurrences, g, block))
  {
  }

  lemma {:induction false} PagesKeepTitled(h: Heuristics, occurrences: Occurrences, bookTitle: Option<string>, g: Grouping, pages: seq<Page>)
    requires Titled(bookTitle, g)
    ensures Titled(bookTitle, TakePages(h, occurrences, g, pages))
    decreases |pages|
  {
    if pages != [] {
      BlocksKeepTitled(h, occurrences, bookTitle, g.(pageStart := |g.blocks|), pages[0]);
      PagesKeepTitled(h, occurrences, bookTitle, TakePage(h, occurrences, g, pages[0]), pages[1..]);
    }
  }

  lemma FirstChapterIsTitled(h: Heuristics, occurrences: Occurrences, bookTitle: Option<string>, pages: seq<Page>)
    ensures var chapters := PdfChapters(h, occurrences, bookTitle, pages);
      chapters != [] ==> FirstTitleIs(bookTitle, chapters[0].blocks, chapters[0].title)
  {
    PagesKeepTitled(h, occurrences, bookTitle, Start(bookTitle), pages);
  }
}
