/** Chapter blocks to synthesis-sized chunks (crates/bookforge-audio/src/text.rs:607-698). */
module Chunking {
  import opened Strings
  import opened Sentences
  import opened GreedyPacking
  import opened Packing
  import opened LongUnits

  function AtLeastOne(n: nat): (r: nat)
    ensures r >= 1
  {
    if n == 0 then 1 else n
  }

  // ----- body text -----

  function HardUnits(script: Script, max: nat): HardSplit
    requires max >= 1
  {
    (sentence: string) => LongUnitPieces(script, sentence, max)
  }

  function BodyChunks(script: Script, text: string, maxChars: nat): seq<string> {
    var max := AtLeastOne(maxChars);
    Pack(Split(script, text), " ", max, HardUnits(script, max), "")
  }

  method ChunkBodyText(script: Script, text: string, maxChars: nat) returns (chunks: seq<string>)
    ensures chunks == BodyChunks(script, text, maxChars)
  {
    var max := AtLeastOne(maxChars);
    chunks := [];
    var current := "";
    var sentences := SplitSentences(script, text);
    ghost var hard, whole := HardUnits(script, max), BodyChunks(script, text, maxChars);
    for k := 0 to |sentences|
      invariant Packs(chunks, sentences, k, " ", max, hard, current, whole)
    {
      var pieces := [];
      if |sentences[k]| > max {
        pieces := SplitLongUnit(script, sentences[k], max);
      }
      chunks, current := PlaceOrSplit(chunks, current, sentences, k, pieces, " ", max, hard, whole);
    }
    PackEnd(chunks, sentences, " ", max, hard, current, whole);
    if current != "" {
      chunks := chunks + [current];
    }
  }

  lemma SentencesNotEmpty(script: Script, text: string)
    ensures NoEmpty(Split(script, text))
  {
    SplitIsTrimmed(script, text);
  }

  /** Body chunks keep the visible text, in order, and respect the limit. */
  lemma BodyChunksSplitWell(script: Script, text: string, maxChars: nat)
    ensures NonBlank(Flatten(BodyChunks(script, text, maxChars))) == NonBlank(text)
    ensures Within(BodyChunks(script, text, maxChars), AtLeastOne(maxChars))
  {
    var max, sentences := AtLeastOne(maxChars), Split(script, text);
    SentencesNotEmpty(script, text);
    SplitKeepsText(script, text);
    forall k | 0 <= k < |sentences| && |sentences[k]| > max
      ensures SplitsWell(sentences[k], max, HardUnits(script, max))
    {
      LongUnitSplitsWell(script, sentences[k], max);
    }
    PackNonBlank(sentences, " ", max, HardUnits(script, max), "");
    PackWithin(sentences, " ", max, HardUnits(script, max), "");
  }

  /** A sentence of unspaced text that is too long is cut into pieces that reproduce it exactly. */
  lemma UnspacedSentenceIsExact(script: Script, text: string, maxChars: nat, k: nat)
    requires k < |Split(script, text)| && !script.isSpaceDelimited(Split(script, text)[k])
    ensures Flatten(HardUnits(script, AtLeastOne(maxChars))(Split(script, text)[k])) == Split(script, text)[k]
  {
    SplitIsTrimmed(script, text);
    UnspacedReproducesIff(script, Split(script, text)[k], AtLeastOne(maxChars));
  }

  /** When no sentence is too long, no in-order grouping with single spaces makes fewer chunks. */
  lemma BodyChunksAreFewest(script: Script, text: string, maxChars: nat, other: seq<nat>)
    requires NoneTooLong(Split(script, text), AtLeastOne(maxChars))
    requires IsGrouping(other, 0, |Split(script, text)|, Joinable(Split(script, text), " ", AtLeastOne(maxChars)))
    ensures |BodyChunks(script, text, maxChars)| <= |other|
    ensures exists ends ::
      && IsGrouping(ends, 0, |Split(script, text)|, Joinable(Split(script, text), " ", AtLeastOne(maxChars)))
      && BodyChunks(script, text, maxChars) == Groups(Split(script, text), " ", ends, 0)
  {
    SentencesNotEmpty(script, text);
    PackIsFewest(Split(script, text), " ", AtLeastOne(maxChars), HardUnits(script, AtLeastOne(maxChars)), other);
  }

  /** A run of newline-free paragraphs, joined by blank lines, is packed from the sentences of each of them. */
  lemma BodyChunksOfParagraphs(script: Script, paragraphs: seq<string>, maxChars: nat)
    requires script.Valid()
    requires forall p | p in paragraphs :: '\n' !in p
    ensures BodyChunks(script, JoinWith(paragraphs, "\n\n"), maxChars)
         == Pack(SplitEach(script, paragraphs), " ", AtLeastOne(maxChars), HardUnits(script, AtLeastOne(maxChars)), "")
  {
    SplitIsHomomorphic(script, paragraphs);
  }

  // ----- blocks -----

  datatype BlockKind = Title | Heading(level: nat) | Paragraph

  datatype Block = Block(kind: BlockKind, text: string)

  datatype ChunkKind = TitleChunk | HeadingChunk | BodyChunk

  datatype Chunk = Chunk(kind: ChunkKind, text: string)

  function Tagged(kind: ChunkKind, texts: seq<string>): (r: seq<Chunk>)
    ensures |r| == |texts|
    ensures forall k | 0 <= k < |r| :: r[k] == Chunk(kind, texts[k])
  {
    seq(|texts|, k requires 0 <= k < |texts| => Chunk(kind, texts[k]))
  }

  /** The chunks of the paragraphs gathered since the last title or heading. */
  function FlushParagraphs(script: Script, paragraphs: seq<string>, maxChars: nat): seq<Chunk> {
    if paragraphs == [] then [] else Tagged(BodyChunk, BodyChunks(script, JoinWith(paragraphs, "\n\n"), maxChars))
  }

  function HeadKind(kind: BlockKind): ChunkKind
    requires !kind.Paragraph?
  {
    if kind.Title? then TitleChunk else HeadingChunk
  }

  function HeadChunks(script: Script, block: Block, headingMaxChars: nat): seq<Chunk>
    requires !block.kind.Paragraph?
  {
    var max, text := AtLeastOne(headingMaxChars), Trim(block.text);
    if text == "" then []
    else Tagged(HeadKind(block.kind), if |text| > max then LongUnitPieces(script, text, max) else [text])
  }

  function BlockChunks(script: Script, blocks: seq<Block>, maxChars: nat, headingMaxChars: nat, paragraphs: seq<string>): seq<Chunk> {
    if blocks == [] then FlushParagraphs(script, paragraphs, maxChars)
    else if blocks[0].kind.Paragraph? then
      BlockChunks(script, blocks[1..], maxChars, headingMaxChars, paragraphs + [blocks[0].text])
    else
      FlushParagraphs(script, paragraphs, maxChars) + HeadChunks(script, blocks[0], headingMaxChars)
        + BlockChunks(script, blocks[1..], maxChars, headingMaxChars, [])
  }

  function Chunks(script: Script, blocks: seq<Block>, maxChars: nat, headingMaxChars: nat): seq<Chunk> {
    BlockChunks(script, blocks, maxChars, headingMaxChars, [])
  }

  method ChunkBlocksWithHeadingLimit(script: Script, blocks: seq<Block>, maxChars: nat, headingMaxChars: nat)
    returns (chunks: seq<Chunk>)
    ensures chunks == Chunks(script, blocks, maxChars, headingMaxChars)
  {
    chunks := [];
    var paragraphs: seq<string> := [];
    ghost var whole := Chunks(script, blocks, maxChars, headingMaxChars);
    assert [] + Chunks(script, blocks[0..], maxChars, headingMaxChars) == whole;
    for k := 0 to |blocks|
      invariant chunks + BlockChunks(script, blocks[k..], maxChars, headingMaxChars, paragraphs) == whole
    {
      var block := blocks[k];
      assert blocks[k..][0] == block && blocks[k..][1..] == blocks[k + 1..];
      if block.kind.Paragraph? {
        paragraphs := paragraphs + [block.text];
      } else {
        ghost var rest := BlockChunks(script, blocks[k + 1..], maxChars, headingMaxChars, []);
        Regroup(chunks, FlushParagraphs(script, paragraphs, maxChars) + HeadChunks(script, block, headingMaxChars), rest);
        Regroup(chunks, FlushParagraphs(script, paragraphs, maxChars), HeadChunks(script, block, headingMaxChars));
        chunks := Flush(script, chunks, paragraphs, maxChars);
        paragraphs := [];
        chunks := PushHead(script, chunks, block, headingMaxChars);
      }
    }
    chunks := Flush(script, chunks, paragraphs, maxChars);
  }

  method Flush(script: Script, chunks: seq<Chunk>, paragraphs: seq<string>, maxChars: nat) returns (all: seq<Chunk>)
    ensures all == chunks + FlushParagraphs(script, paragraphs, maxChars)
  {
    all := chunks;
    if paragraphs != [] {
      var body := ChunkBodyText(script, JoinWith(paragraphs, "\n\n"), maxChars);
      all := all + Tagged(BodyChunk, body);
    }
  }

  method PushHead(script: Script, chunks: seq<Chunk>, block: Block, headingMaxChars: nat) returns (all: seq<Chunk>)
    requires !block.kind.Paragraph?
    ensures all == chunks + HeadChunks(script, block, headingMaxChars)
  {
    var headingMax := AtLeastOne(headingMaxChars);
    all := chunks;
    var text := Trim(block.text);
    if text != "" {
      var pieces := [text];
      if |text| > headingMax {
        pieces := SplitLongUnit(script, text, headingMax);
      }
      all := all + Tagged(HeadKind(block.kind), pieces);
    }
  }

  // ----- nothing visible is lost, every chunk respects the limit of its kind -----

  function ChunkTexts(chunks: seq<Chunk>): seq<string> {
    if chunks == [] then [] else [chunks[0].text] + ChunkTexts(chunks[1..])
  }

  function BlockTexts(blocks: seq<Block>): seq<string> {
    if blocks == [] then [] else [blocks[0].text] + BlockTexts(blocks[1..])
  }

  lemma {:induction false} ChunkTextsConcat(a: seq<Chunk>, b: seq<Chunk>)
    ensures ChunkTexts(a + b) == ChunkTexts(a) + ChunkTexts(b)
  {
    if a == [] {
      assert a + b == b;
    } else {
      assert (a + b)[1..] == a[1..] + b;
      ChunkTextsConcat(a[1..], b);
    }
  }

  lemma {:induction false} TaggedTexts(kind: ChunkKind, texts: seq<string>)
    ensures ChunkTexts(Tagged(kind, texts)) == texts
  {
    if texts != [] {
      TaggedTexts(kind, texts[1..]);
      assert Tagged(kind, texts)[1..] == Tagged(kind, texts[1..]);
    }
  }

  /** The visible characters of the chunks, in order. */
  function Visible(chunks: seq<Chunk>): string {
    NonBlank(Flatten(ChunkTexts(chunks)))
  }

  lemma VisibleConcat(a: seq<Chunk>, b: seq<Chunk>)
    ensures Visible(a + b) == Visible(a) + Visible(b)
  {
    ChunkTextsConcat(a, b);
    NonBlankFlattenConcat(ChunkTexts(a), ChunkTexts(b));
  }

  ghost predicate WithinLimits(chunks: seq<Chunk>, maxChars: nat, headingMaxChars: nat) {
    forall k | 0 <= k < |chunks| ::
      0 < |chunks[k].text| <= AtLeastOne(if chunks[k].kind.BodyChunk? then maxChars else headingMaxChars)
  }

  lemma FlushKeepsText(script: Script, paragraphs: seq<string>, maxChars: nat)
    ensures Visible(FlushParagraphs(script, paragraphs, maxChars)) == NonBlank(Flatten(paragraphs))
  {
    if paragraphs != [] {
      var text := JoinWith(paragraphs, "\n\n");
      BodyChunksSplitWell(script, text, maxChars);
      JoinNonBlank(paragraphs, "\n\n");
      TaggedTexts(BodyChunk, BodyChunks(script, text, maxChars));
    }
  }

  lemma FlushWithinLimits(script: Script, paragraphs: seq<string>, maxChars: nat, headingMaxChars: nat)
    ensures WithinLimits(FlushParagraphs(script, paragraphs, maxChars), maxChars, headingMaxChars)
  {
    BodyChunksSplitWell(script, JoinWith(paragraphs, "\n\n"), maxChars);
  }

  lemma HeadKeepsText(script: Script, block: Block, headingMaxChars: nat)
    requires !block.kind.Paragraph?
    ensures Visible(HeadChunks(script, block, headingMaxChars)) == NonBlank(block.text)
  {
    var max, text := AtLeastOne(headingMaxChars), Trim(block.text);
    TrimNonBlank(block.text);
    LongUnitSplitsWell(script, text, max);
    FlattenOne(text);
    if text == "" {
      NonBlankOfBlank(block.text);
    } else {
      TaggedTexts(HeadKind(block.kind), if |text| > max then LongUnitPieces(script, text, max) else [text]);
    }
  }

  /** The chunks of an unspaced title or heading reproduce its trimmed text exactly. */
  lemma UnspacedHeadIsExact(script: Script, block: Block, headingMaxChars: nat)
    requires !block.kind.Paragraph? && !script.isSpaceDelimited(Trim(block.text))
    ensures Flatten(ChunkTexts(HeadChunks(script, block, headingMaxChars))) == Trim(block.text)
  {
    var max, text := AtLeastOne(headingMaxChars), Trim(block.text);
    TrimIsTrimmed(block.text);
    UnspacedReproducesIff(script, text, max);
    FlattenOne(text);
    TaggedTexts(HeadKind(block.kind), if |text| > max then LongUnitPieces(script, text, max) else [text]);
  }

  lemma HeadWithinLimits(script: Script, block: Block, maxChars: nat, headingMaxChars: nat)
    requires !block.kind.Paragraph?
    ensures WithinLimits(HeadChunks(script, block, headingMaxChars), maxChars, headingMaxChars)
  {
    LongUnitSplitsWell(script, Trim(block.text), AtLeastOne(headingMaxChars));
  }

  lemma {:induction false} BlocksKeepText(script: Script, blocks: seq<Block>, maxChars: nat, headingMaxChars: nat, paragraphs: seq<string>)
    ensures Visible(BlockChunks(script, blocks, maxChars, headingMaxChars, paragraphs))
         == NonBlank(Flatten(paragraphs)) + NonBlank(Flatten(BlockTexts(blocks)))
    decreases blocks
  {
    if blocks == [] {
      FlushKeepsText(script, paragraphs, maxChars);
    } else if blocks[0].kind.Paragraph? {
      BlocksKeepText(script, blocks[1..], maxChars, headingMaxChars, paragraphs + [blocks[0].text]);
      OneMoreParagraph(paragraphs, blocks[0].text);
      FirstBlockText(blocks);
    } else {
      BlocksKeepText(script, blocks[1..], maxChars, headingMaxChars, []);
      assert NonBlank(Flatten([])) == "";
      HeadStepText(script, blocks, maxChars, headingMaxChars, paragraphs);
    }
  }

  lemma HeadStepText(script: Script, blocks: seq<Block>, maxChars: nat, headingMaxChars: nat, paragraphs: seq<string>)
    requires blocks != [] && !blocks[0].kind.Paragraph?
    requires Visible(BlockChunks(script, blocks[1..], maxChars, headingMaxChars, []))
          == NonBlank(Flatten(BlockTexts(blocks[1..])))
    ensures Visible(BlockChunks(script, blocks, maxChars, headingMaxChars, paragraphs))
         == NonBlank(Flatten(paragraphs)) + NonBlank(Flatten(BlockTexts(blocks)))
  {
    FlushKeepsText(script, paragraphs, maxChars);
    HeadKeepsText(script, blocks[0], headingMaxChars);
    VisibleStep(FlushParagraphs(script, paragraphs, maxChars), HeadChunks(script, blocks[0], headingMaxChars),
                BlockChunks(script, blocks[1..], maxChars, headingMaxChars, []));
    FirstBlockText(blocks);
    Regroup(NonBlank(Flatten(paragraphs)), NonBlank(blocks[0].text), NonBlank(Flatten(BlockTexts(blocks[1..]))));
  }

  lemma FirstBlockText(blocks: seq<Block>)
    requires blocks != []
    ensures NonBlank(Flatten(BlockTexts(blocks))) == NonBlank(blocks[0].text) + NonBlank(Flatten(BlockTexts(blocks[1..])))
  {
    NonBlankConcat(blocks[0].text, Flatten(BlockTexts(blocks[1..])));
  }

  lemma OneMoreParagraph(paragraphs: seq<string>, text: string)
    ensures NonBlank(Flatten(paragraphs + [text])) == NonBlank(Flatten(paragraphs)) + NonBlank(text)
  {
    NonBlankFlattenConcat(paragraphs, [text]);
    FlattenOne(text);
  }

  lemma VisibleStep(flushed: seq<Chunk>, heads: seq<Chunk>, rest: seq<Chunk>)
    ensures Visible(flushed + heads + rest) == Visible(flushed) + Visible(heads) + Visible(rest)
  {
    VisibleConcat(flushed + heads, rest);
    VisibleConcat(flushed, heads);
  }

  lemma {:induction false} BlocksWithinLimits(script: Script, blocks: seq<Block>, maxChars: nat, headingMaxChars: nat, paragraphs: seq<string>)
    ensures WithinLimits(BlockChunks(script, blocks, maxChars, headingMaxChars, paragraphs), maxChars, headingMaxChars)
    decreases blocks
  {
    FlushWithinLimits(script, paragraphs, maxChars, headingMaxChars);
    if blocks != [] {
      if blocks[0].kind.Paragraph? {
        BlocksWithinLimits(script, blocks[1..], maxChars, headingMaxChars, paragraphs + [blocks[0].text]);
      } else {
        BlocksWithinLimits(script, blocks[1..], maxChars, headingMaxChars, []);
        HeadWithinLimits(script, blocks[0], maxChars, headingMaxChars);
      }
    }
  }

  /** For all blocks and limits: the chunks' visible characters are exactly the blocks', every chunk fits its kind. */
  lemma ChunksKeepTextWithinLimits(script: Script, blocks: seq<Block>, maxChars: nat, headingMaxChars: nat)
    ensures Visible(Chunks(script, blocks, maxChars, headingMaxChars)) == NonBlank(Flatten(BlockTexts(blocks)))
    ensures WithinLimits(Chunks(script, blocks, maxChars, headingMaxChars), maxChars, headingMaxChars)
  {
    BlocksKeepText(script, blocks, maxChars, headingMaxChars, []);
    BlocksWithinLimits(script, blocks, maxChars, headingMaxChars, []);
  }

  // ----- run by run: which blocks make which chunks -----

  ghost predicate AllParagraphs(blocks: seq<Block>) {
    forall k | 0 <= k < |blocks| :: blocks[k].kind.Paragraph?
  }

  /** `chunks` are the body chunks of one run of paragraphs, read with blank lines between them. */
  ghost predicate AreBodyOf(chunks: seq<Chunk>, script: Script, texts: seq<string>, maxChars: nat) {
    var body := if texts == [] then [] else BodyChunks(script, JoinWith(texts, "\n\n"), maxChars);
    |chunks| == |body| && forall k | 0 <= k < |body| :: chunks[k].kind == BodyChunk && chunks[k].text == body[k]
  }

  /** `chunks` are those of a title or heading, as such: none for a blank one, itself if it fits, else its pieces. */
  ghost predicate AreHeadOf(chunks: seq<Chunk>, script: Script, block: Block, headingMaxChars: nat) {
    && (forall k | 0 <= k < |chunks| :: chunks[k].kind == if block.kind == Title then TitleChunk else HeadingChunk)
    && ChunkTexts(chunks) == if Blank(block.text) then []
                             else if |Trim(block.text)| <= AtLeastOne(headingMaxChars) then [Trim(block.text)]
                             else LongUnitPieces(script, Trim(block.text), AtLeastOne(headingMaxChars))
  }

  /** The paragraphs up to the first title or heading, or to the end, are chunked as one text; then comes the head, and
      then the rest by itself. */
  lemma ChunksRunByRun(script: Script, run: seq<Block>, rest: seq<Block>, maxChars: nat, headingMaxChars: nat)
    returns (body: seq<Chunk>, head: seq<Chunk>)
    requires AllParagraphs(run) && (rest != [] ==> !rest[0].kind.Paragraph?)
    ensures AreBodyOf(body, script, BlockTexts(run), maxChars)
    ensures if rest == [] then head == [] else AreHeadOf(head, script, rest[0], headingMaxChars)
    ensures Chunks(script, run + rest, maxChars, headingMaxChars)
         == body + head + if rest == [] then [] else Chunks(script, rest[1..], maxChars, headingMaxChars)
  {
    GatheredRun(script, run, rest, maxChars, headingMaxChars, []);
    assert [] + BlockTexts(run) == BlockTexts(run);
    body := FlushParagraphs(script, BlockTexts(run), maxChars);
    head := [];
    if rest == [] {
      assert body + head + [] == body;
    } else {
      head := HeadChunks(script, rest[0], headingMaxChars);
      HeadIsHead(script, rest[0], headingMaxChars);
    }
  }

  lemma HeadIsHead(script: Script, block: Block, headingMaxChars: nat)
    requires !block.kind.Paragraph?
    ensures AreHeadOf(HeadChunks(script, block, headingMaxChars), script, block, headingMaxChars)
  {
    var max, text := AtLeastOne(headingMaxChars), Trim(block.text);
    TrimNonBlank(block.text);
    if text != "" {
      TaggedTexts(HeadKind(block.kind), if |text| > max then LongUnitPieces(script, text, max) else [text]);
    }
  }

  lemma {:induction false} GatheredRun(script: Script, run: seq<Block>, rest: seq<Block>, maxChars: nat, headingMaxChars: nat, texts: seq<string>)
    requires AllParagraphs(run)
    ensures BlockChunks(script, run + rest, maxChars, headingMaxChars, texts)
         == BlockChunks(script, rest, maxChars, headingMaxChars, texts + BlockTexts(run))
  {
    if run == [] {
      assert run + rest == rest && texts + [] == texts;
    } else {
      assert (run + rest)[1..] == run[1..] + rest;
      GatheredRun(script, run[1..], rest, maxChars, headingMaxChars, texts + [run[0].text]);
      Regroup(texts, [run[0].text], BlockTexts(run[1..]));
    }
  }

  // ----- the two limits do not interfere -----

  function OfKind(chunks: seq<Chunk>, body: bool): seq<Chunk> {
    if chunks == [] then []
    else (if chunks[0].kind.BodyChunk? == body then [chunks[0]] else []) + OfKind(chunks[1..], body)
  }

  lemma {:induction false} OfKindConcat(a: seq<Chunk>, b: seq<Chunk>, body: bool)
    ensures OfKind(a + b, body) == OfKind(a, body) + OfKind(b, body)
  {
    if a == [] {
      assert a + b == b;
    } else {
      assert (a + b)[1..] == a[1..] + b;
      OfKindConcat(a[1..], b, body);
      Regroup(if a[0].kind.BodyChunk? == body then [a[0]] else [], OfKind(a[1..], body), OfKind(b, body));
    }
  }

  lemma {:induction false} OfKindUniform(chunks: seq<Chunk>, body: bool)
    requires forall k | 0 <= k < |chunks| :: chunks[k].kind.BodyChunk? == body
    ensures OfKind(chunks, body) == chunks && OfKind(chunks, !body) == []
  {
    if chunks != [] {
      OfKindUniform(chunks[1..], body);
    }
  }

  lemma {:induction false} LimitsIndependentFrom(script: Script, blocks: seq<Block>, paragraphs: seq<string>,
                                                 max1: nat, head1: nat, max2: nat, head2: nat)
    ensures max1 == max2 ==>
      OfKind(BlockChunks(script, blocks, max1, head1, paragraphs), true) == OfKind(BlockChunks(script, blocks, max2, head2, paragraphs), true)
    ensures head1 == head2 ==>
      OfKind(BlockChunks(script, blocks, max1, head1, paragraphs), false) == OfKind(BlockChunks(script, blocks, max2, head2, paragraphs), false)
    decreases blocks
  {
    OfKindUniform(FlushParagraphs(script, paragraphs, max1), true);
    OfKindUniform(FlushParagraphs(script, paragraphs, max2), true);
    if blocks != [] {
      var rest := blocks[1..];
      if blocks[0].kind.Paragraph? {
        LimitsIndependentFrom(script, rest, paragraphs + [blocks[0].text], max1, head1, max2, head2);
      } else {
        LimitsIndependentFrom(script, rest, [], max1, head1, max2, head2);
        HeadStepOfKind(script, blocks, paragraphs, max1, head1);
        HeadStepOfKind(script, blocks, paragraphs, max2, head2);
      }
    }
  }

  lemma HeadStepOfKind(script: Script, blocks: seq<Block>, paragraphs: seq<string>, max: nat, head: nat)
    requires blocks != [] && !blocks[0].kind.Paragraph?
    ensures OfKind(BlockChunks(script, blocks, max, head, paragraphs), true)
         == FlushParagraphs(script, paragraphs, max) + OfKind(BlockChunks(script, blocks[1..], max, head, []), true)
    ensures OfKind(BlockChunks(script, blocks, max, head, paragraphs), false)
         == HeadChunks(script, blocks[0], head) + OfKind(BlockChunks(script, blocks[1..], max, head, []), false)
  {
    OfKindStep(FlushParagraphs(script, paragraphs, max), HeadChunks(script, blocks[0], head),
               BlockChunks(script, blocks[1..], max, head, []));
  }

  lemma OfKindStep(flushed: seq<Chunk>, heads: seq<Chunk>, rest: seq<Chunk>)
    requires forall k | 0 <= k < |flushed| :: flushed[k].kind.BodyChunk?
    requires forall k | 0 <= k < |heads| :: !heads[k].kind.BodyChunk?
    ensures OfKind(flushed + heads + rest, true) == flushed + OfKind(rest, true)
    ensures OfKind(flushed + heads + rest, false) == heads + OfKind(rest, false)
  {
    OfKindUniform(flushed, true);
    OfKindUniform(heads, false);
    OfKindConcat(flushed + heads, rest, true);
    OfKindConcat(flushed + heads, rest, false);
    OfKindConcat(flushed, heads, true);
    OfKindConcat(flushed, heads, false);
    assert OfKind(heads, true) == [] && OfKind(flushed, false) == [];
    assert flushed + [] == flushed && [] + heads == heads;
  }

  /** Body chunks depend on the body limit only, title and heading chunks on the heading limit only. */
  lemma LimitsAreIndependent(script: Script, blocks: seq<Block>, max1: nat, head1: nat, max2: nat, head2: nat)
    ensures max1 == max2 ==> OfKind(Chunks(script, blocks, max1, head1), true) == OfKind(Chunks(script, blocks, max2, head2), true)
    ensures head1 == head2 ==> OfKind(Chunks(script, blocks, max1, head1), false) == OfKind(Chunks(script, blocks, max2, head2), false)
  {
    LimitsIndependentFrom(script, blocks, [], max1, head1, max2, head2);
  }
}
