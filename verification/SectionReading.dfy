/** What is narrated of a section: its text blocks, the first heading as its title
    (crates/bookforge-audio/src/text.rs:104-141). */
module SectionReading {
  import opened Options
  import opened Strings
  import opened Selection
  import opened Chunking
  import opened Planning
  import opened Chapters

  predicate IsNarrated(block: SourceBlock) {
    !block.kind.PageFurniture? && block.text != ""
  }

  /** No heading is among the narrated blocks before `k`. */
  ghost predicate NoHeadingBefore(source: seq<SourceBlock>, k: nat) {
    forall j | 0 <= j < k && j < |source| :: !(IsNarrated(source[j]) && source[j].kind.SourceHeading?)
  }

  /** A heading is the title if none is before it, else a heading of its level; anything else is a paragraph. */
  ghost predicate HasKind(source: seq<SourceBlock>, k: nat, first: bool, kind: BlockKind) {
    k < |source| &&
    match source[k].kind
    case SourceHeading(level) => kind == if first && NoHeadingBefore(source, k) then Title else BlockKind.Heading(level)
    case _ => kind == Paragraph
  }

  ghost predicate NarratesAt(source: seq<SourceBlock>, first: bool, block: Block, k: nat) {
    k < |source| && block.text == source[k].text && HasKind(source, k, first, block.kind)
  }

  ghost predicate AllAt(source: seq<SourceBlock>, first: bool, blocks: seq<Block>, picks: seq<nat>) {
    |blocks| == |picks| && forall i | 0 <= i < |picks| :: NarratesAt(source, first, blocks[i], picks[i])
  }

  /** `picks` are the narrated blocks of the source, and `blocks` what is narrated of them, in order. */
  ghost predicate Narrates(source: seq<SourceBlock>, first: bool, blocks: seq<Block>, picks: seq<nat>) {
    PicksExactly(source, IsNarrated, picks) && AllAt(source, first, blocks, picks)
  }

  lemma HeadingBehind(source: seq<SourceBlock>, k: nat)
    requires source != []
    ensures NoHeadingBefore(source, k + 1)
       <==> !(IsNarrated(source[0]) && source[0].kind.SourceHeading?) && NoHeadingBefore(source[1..], k)
  {
    var rest := source[1..];
    assert forall j | 0 < j < |source| :: source[j] == rest[j - 1];
    if NoHeadingBefore(source, k + 1) {
      forall j | 0 <= j < k && j < |rest| ensures !(IsNarrated(rest[j]) && rest[j].kind.SourceHeading?) {
        assert rest[j] == source[j + 1];
      }
    }
  }

  lemma KindBehind(source: seq<SourceBlock>, k: nat, first: bool, kind: BlockKind)
    requires source != []
    requires var heading := IsNarrated(source[0]) && source[0].kind.SourceHeading?;
      HasKind(source[1..], k, first && !heading, kind)
    ensures HasKind(source, k + 1, first, kind)
  {
    HeadingBehind(source, k);
    assert source[1..][k] == source[k + 1];
  }

  lemma NarratedBehind(source: seq<SourceBlock>, first: bool, blocks: seq<Block>, later: seq<nat>)
    requires source != []
    requires Narrates(source[1..], first && !(IsNarrated(source[0]) && source[0].kind.SourceHeading?), blocks, later)
    ensures AllAt(source, first, blocks, Shifted(later, 1))
  {
    var shifted := Shifted(later, 1);
    forall i | 0 <= i < |later| ensures NarratesAt(source, first, blocks[i], shifted[i]) {
      KindBehind(source, later[i], first, blocks[i].kind);
      assert source[1..][later[i]] == source[later[i] + 1];
    }
  }

  lemma {:induction false} SectionIsNarrated(source: seq<SourceBlock>, first: bool) returns (picks: seq<nat>)
    ensures Narrates(source, first, SectionBlocks(source, first), picks)
    decreases |source|
  {
    if source == [] {
      picks := [];
    } else {
      var heading := IsNarrated(source[0]) && source[0].kind.SourceHeading?;
      var blocks := SectionBlocks(source[1..], first && !heading);
      var later := SectionIsNarrated(source[1..], first && !heading);
      picks := FirstNarrated(source, first, blocks, later);
      SectionUnfolds(source, first);
    }
  }

  /** What the first block adds. */
  function FirstBlock(source: seq<SourceBlock>, first: bool): seq<Block>
    requires source != []
  {
    if !IsNarrated(source[0]) then []
    else [Block(if source[0].kind.SourceHeading? && first then Title else PlainKind(source[0].kind), source[0].text)]
  }

  lemma SectionUnfolds(source: seq<SourceBlock>, first: bool)
    requires source != []
    ensures SectionBlocks(source, first)
         == FirstBlock(source, first) + SectionBlocks(source[1..], first && !(IsNarrated(source[0]) && source[0].kind.SourceHeading?))
  {
  }

  lemma AllAtConcat(source: seq<SourceBlock>, first: bool, a: seq<Block>, picksA: seq<nat>, b: seq<Block>, picksB: seq<nat>)
    requires AllAt(source, first, a, picksA) && AllAt(source, first, b, picksB)
    ensures AllAt(source, first, a + b, picksA + picksB)
  {
  }

  lemma FirstPick(source: seq<SourceBlock>, later: seq<nat>) returns (own: seq<nat>)
    requires source != [] && PicksExactly(source[1..], IsNarrated, later)
    ensures own == (if IsNarrated(source[0]) then [0] else []) && PicksExactly(source, IsNarrated, own + Shifted(later, 1))
  {
    own := if IsNarrated(source[0]) then [0] else [];
    assert [source[0]] + source[1..] == source;
    PicksConcat([source[0]], source[1..], IsNarrated, own, later);
  }

  lemma FirstAt(source: seq<SourceBlock>, first: bool)
    requires source != []
    ensures AllAt(source, first, FirstBlock(source, first), if IsNarrated(source[0]) then [0] else [])
  {
    assert NoHeadingBefore(source, 0);
  }

  lemma FirstNarrated(source: seq<SourceBlock>, first: bool, blocks: seq<Block>, later: seq<nat>) returns (picks: seq<nat>)
    requires source != []
    requires Narrates(source[1..], first && !(IsNarrated(source[0]) && source[0].kind.SourceHeading?), blocks, later)
    ensures Narrates(source, first, FirstBlock(source, first) + blocks, picks)
  {
    var own := FirstPick(source, later);
    picks := own + Shifted(later, 1);
    FirstAt(source, first);
    NarratedBehind(source, first, blocks, later);
    AllAtConcat(source, first, FirstBlock(source, first), own, blocks, Shifted(later, 1));
  }

  /** A section becomes a chapter at its place, called after itself or else by its number, and narrates its text blocks. */
  lemma SectionBecomesChapter(index: nat, section: Section, fallback: nat -> string) returns (picks: seq<nat>)
    ensures var chapter := SectionChapter(index, section, fallback);
      && chapter.index == index
      && chapter.title == (match section.title
                           case Some(title) => if Trim(title) != "" then Trim(title) else fallback(index + 1)
                           case None => fallback(index + 1))
      && Narrates(section.blocks, true, chapter.blocks, picks)
  {
    picks := SectionIsNarrated(section.blocks, true);
  }
}
