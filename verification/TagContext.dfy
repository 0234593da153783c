/** Which body chunks of a chapter keep their cache identity under every heading break tag
    (crates/bookforge-audio/src/builder.rs:312-384). */
module TagContext {
  import opened Options
  import opened Strings
  import opened Sentences
  import opened Packing
  import opened LongUnits
  import opened FirstPieces
  import opened Chunking
  import opened Planning
  import opened PlanProperties
  import opened BreakTags

  // ----- a chapter without its tags -----

  /** A body chunk, or a title or heading that will be cut under a limit that depends on the tag. */
  datatype Segment = Body(text: string) | Head(kind: ChunkKind, text: string)

  function Bodies(texts: seq<string>): seq<Segment> {
    if texts == [] then [] else [Body(texts[0])] + Bodies(texts[1..])
  }

  function FlushSegments(script: Script, paragraphs: seq<string>, maxChars: nat): seq<Segment> {
    if paragraphs == [] then [] else Bodies(BodyChunks(script, JoinWith(paragraphs, "\n\n"), maxChars))
  }

  function HeadSegment(block: Block): seq<Segment>
    requires !block.kind.Paragraph?
  {
    if Trim(block.text) == "" then [] else [Head(HeadKind(block.kind), Trim(block.text))]
  }

  /** The body chunks and the titles and headings with text, in order. */
  function Segments(script: Script, blocks: seq<Block>, maxChars: nat, paragraphs: seq<string>): seq<Segment> {
    if blocks == [] then FlushSegments(script, paragraphs, maxChars)
    else if blocks[0].kind.Paragraph? then Segments(script, blocks[1..], maxChars, paragraphs + [blocks[0].text])
    else FlushSegments(script, paragraphs, maxChars) + HeadSegment(blocks[0]) + Segments(script, blocks[1..], maxChars, [])
  }

  function Expanded(script: Script, headingMax: nat, segment: Segment): seq<Chunk> {
    match segment
    case Body(text) => [Chunk(BodyChunk, text)]
    case Head(kind, text) => Tagged(kind, HeadTexts(script, text, AtLeastOne(headingMax)))
  }

  function ExpandedAll(script: Script, headingMax: nat, segments: seq<Segment>): seq<Chunk> {
    if segments == [] then [] else Expanded(script, headingMax, segments[0]) + ExpandedAll(script, headingMax, segments[1..])
  }

  ghost predicate WellFormed(segments: seq<Segment>) {
    forall k | 0 <= k < |segments| ::
      if segments[k].Body? then segments[k].text != "" else IsHeadText(segments[k].text) && !segments[k].kind.BodyChunk?
  }

  lemma {:induction false} ExpandedConcat(script: Script, headingMax: nat, a: seq<Segment>, b: seq<Segment>)
    ensures ExpandedAll(script, headingMax, a + b) == ExpandedAll(script, headingMax, a) + ExpandedAll(script, headingMax, b)
  {
    if a == [] {
      assert a + b == b;
    } else {
      assert (a + b)[1..] == a[1..] + b;
      ExpandedConcat(script, headingMax, a[1..], b);
      Regroup(Expanded(script, headingMax, a[0]), ExpandedAll(script, headingMax, a[1..]), ExpandedAll(script, headingMax, b));
    }
  }

  lemma {:induction false} BodiesExpand(script: Script, headingMax: nat, texts: seq<string>)
    requires NoEmpty(texts)
    ensures ExpandedAll(script, headingMax, Bodies(texts)) == Tagged(BodyChunk, texts)
    ensures WellFormed(Bodies(texts))
  {
    if texts != [] {
      BodiesExpand(script, headingMax, texts[1..]);
      assert Tagged(BodyChunk, texts) == [Chunk(BodyChunk, texts[0])] + Tagged(BodyChunk, texts[1..]);
    }
  }

  lemma FlushExpands(script: Script, paragraphs: seq<string>, maxChars: nat, headingMax: nat)
    ensures ExpandedAll(script, headingMax, FlushSegments(script, paragraphs, maxChars)) == FlushParagraphs(script, paragraphs, maxChars)
    ensures WellFormed(FlushSegments(script, paragraphs, maxChars))
  {
    if paragraphs != [] {
      var text := JoinWith(paragraphs, "\n\n");
      BodyChunksSplitWell(script, text, maxChars);
      BodiesExpand(script, headingMax, BodyChunks(script, text, maxChars));
    }
  }

  lemma HeadExpands(script: Script, block: Block, headingMax: nat)
    requires !block.kind.Paragraph?
    ensures ExpandedAll(script, headingMax, HeadSegment(block)) == HeadChunks(script, block, headingMax)
    ensures WellFormed(HeadSegment(block))
  {
    TrimIsTrimmed(block.text);
    if Trim(block.text) != "" {
      var segment := Head(HeadKind(block.kind), Trim(block.text));
      assert HeadSegment(block) == [segment] && [segment][1..] == [];
      assert Expanded(script, headingMax, segment) + [] == Expanded(script, headingMax, segment);
    }
  }

  /** The segments, expanded under any limit for headings, are the chunks under that limit. */
  lemma {:induction false} ChunksAreExpanded(script: Script, blocks: seq<Block>, maxChars: nat, headingMax: nat, paragraphs: seq<string>)
    ensures BlockChunks(script, blocks, maxChars, headingMax, paragraphs)
         == ExpandedAll(script, headingMax, Segments(script, blocks, maxChars, paragraphs))
    ensures WellFormed(Segments(script, blocks, maxChars, paragraphs))
    decreases blocks
  {
    FlushExpands(script, paragraphs, maxChars, headingMax);
    if blocks != [] {
      if blocks[0].kind.Paragraph? {
        ChunksAreExpanded(script, blocks[1..], maxChars, headingMax, paragraphs + [blocks[0].text]);
      } else {
        ChunksAreExpanded(script, blocks[1..], maxChars, headingMax, []);
        HeadExpands(script, blocks[0], headingMax);
        var flushed, head := FlushSegments(script, paragraphs, maxChars), HeadSegment(blocks[0]);
        ExpandedConcat(script, headingMax, flushed + head, Segments(script, blocks[1..], maxChars, []));
        ExpandedConcat(script, headingMax, flushed, head);
      }
    }
  }

  // ----- what the neighbours lend a body chunk -----

  function FirstRequest(script: Script, options: BuildOptions, segment: Segment): string {
    var chunks := Expanded(script, HeadingMaxChars(options), segment);
    if chunks == [] then "" else RequestText(chunks[0], options)
  }

  function LastRequest(script: Script, options: BuildOptions, segment: Segment): string {
    var chunks := Expanded(script, HeadingMaxChars(options), segment);
    if chunks == [] then "" else RequestText(chunks[|chunks| - 1], options)
  }

  function Before(script: Script, options: BuildOptions, segments: seq<Segment>, k: nat): (r: Option<string>)
    requires k < |segments|
    ensures r != Some("")
  {
    if k == 0 then None else ContextSlice(LastRequest(script, options, segments[k - 1]), options.contextChars, true)
  }

  function After(script: Script, options: BuildOptions, segments: seq<Segment>, k: nat): (r: Option<string>)
    requires k < |segments|
    ensures r != Some("")
  {
    if k + 1 == |segments| then None else ContextSlice(FirstRequest(script, options, segments[k + 1]), options.contextChars, false)
  }

  /** The cache key of the body chunk at segment `k`. */
  function KeyAt(script: Script, digest: Digest, options: BuildOptions, segments: seq<Segment>, k: nat): string
    requires k < |segments|
  {
    SynthesisHash(digest, options, segments[k].text, BodyChunk, Before(script, options, segments, k), After(script, options, segments, k))
  }

  /** Those of the keys from `k` on that belong to body segments. */
  function BodyKeys(keys: seq<string>, segments: seq<Segment>, k: nat): seq<string>
    requires |keys| == |segments| && k <= |keys|
    decreases |keys| - k
  {
    if k == |keys| then []
    else if segments[k].Body? then [keys[k]] + BodyKeys(keys, segments, k + 1)
    else BodyKeys(keys, segments, k + 1)
  }

  /** The keys at all segments. */
  function KeysOf(script: Script, digest: Digest, options: BuildOptions, segments: seq<Segment>): (keys: seq<string>)
    ensures |keys| == |segments|
    ensures forall k | 0 <= k < |keys| :: keys[k] == KeyAt(script, digest, options, segments, k)
  {
    seq(|segments|, k requires 0 <= k < |segments| => KeyAt(script, digest, options, segments, k))
  }

  /** The cache keys of a plan's body chunks, in order. */
  function CacheKeys(plan: seq<PlannedChunk>): seq<string> {
    if plan == [] then []
    else if plan[0].kind.BodyChunk? then [plan[0].synthesis] + CacheKeys(plan[1..])
    else CacheKeys(plan[1..])
  }

  function SegmentsOf(script: Script, chapter: Chapter, options: BuildOptions): seq<Segment> {
    Segments(script, chapter.blocks, options.maxChars, [])
  }

  // ----- chunks laid out segment by segment -----

  /** `chunks` are the parts one after the other, part `k` from `starts[k]` on. */
  ghost predicate LaidOut(parts: seq<seq<Chunk>>, chunks: seq<Chunk>, starts: seq<nat>) {
    && |starts| == |parts| + 1 && starts[0] == 0 && starts[|parts|] == |chunks|
    && forall k | 0 <= k < |parts| :: PartAt(parts, chunks, starts, k)
  }

  ghost predicate PartAt(parts: seq<seq<Chunk>>, chunks: seq<Chunk>, starts: seq<nat>, k: nat)
    requires k < |parts| && |starts| == |parts| + 1
  {
    starts[k] <= starts[k + 1] <= |chunks| && chunks[starts[k]..starts[k + 1]] == parts[k]
  }

  lemma {:induction false} LayOut(parts: seq<seq<Chunk>>) returns (starts: seq<nat>)
    ensures LaidOut(parts, Flatten(parts), starts)
    decreases |parts|
  {
    if parts == [] {
      starts := [0];
    } else {
      var n := |parts| - 1;
      var front, last := parts[..n], parts[n];
      var before := LayOut(front);
      var chunks := Flatten(front) + last;
      assert parts == front + [last];
      FlattenConcat(front, [last]);
      FlattenOne(last);
      starts := before + [|chunks|];
      forall k | 0 <= k < |parts| ensures PartAt(parts, chunks, starts, k) {
        if k < n {
          assert PartAt(front, Flatten(front), before, k);
          assert chunks[starts[k]..starts[k + 1]] == Flatten(front)[before[k]..before[k + 1]];
        }
      }
    }
  }

  lemma FirstOfPart(parts: seq<seq<Chunk>>, chunks: seq<Chunk>, starts: seq<nat>, k: nat)
    requires LaidOut(parts, chunks, starts) && k < |parts| && parts[k] != []
    ensures starts[k] < |chunks| && chunks[starts[k]] == parts[k][0] && starts[k + 1] == starts[k] + |parts[k]|
    ensures 0 < starts[k + 1] <= |chunks| && chunks[starts[k + 1] - 1] == parts[k][|parts[k]| - 1]
  {
    assert PartAt(parts, chunks, starts, k);
    var part := chunks[starts[k]..starts[k + 1]];
    assert part[0] == chunks[starts[k]] && part[|part| - 1] == chunks[starts[k + 1] - 1];
  }

  /** The plan's keys are the body segments' keys when each part's records are as its segment says. */
  ghost predicate KeyedAt(plan: seq<PlannedChunk>, segments: seq<Segment>, keys: seq<string>, starts: seq<nat>, k: nat)
    requires |keys| == |segments| && |starts| == |segments| + 1 && k < |segments|
  {
    && starts[k] <= starts[k + 1] <= |plan|
    && if segments[k].Body? then
         starts[k + 1] == starts[k] + 1 && plan[starts[k]].kind.BodyChunk? && plan[starts[k]].synthesis == keys[k]
       else
         forall i | starts[k] <= i < starts[k + 1] :: !plan[i].kind.BodyChunk?
  }

  lemma {:induction false} SkipHeads(plan: seq<PlannedChunk>, i: nat, next: nat)
    requires i <= next <= |plan| && forall m | i <= m < next :: !plan[m].kind.BodyChunk?
    ensures CacheKeys(plan[i..]) == CacheKeys(plan[next..])
    decreases next - i
  {
    if i < next {
      SkipHeads(plan, i + 1, next);
      assert plan[i..][0] == plan[i] && plan[i..][1..] == plan[i + 1..];
    }
  }

  lemma {:induction false} KeysInOrder(plan: seq<PlannedChunk>, segments: seq<Segment>, keys: seq<string>, starts: seq<nat>, k: nat)
    requires |keys| == |segments| && |starts| == |segments| + 1 && k <= |segments| && starts[|segments|] == |plan|
    requires forall j | 0 <= j < |segments| :: KeyedAt(plan, segments, keys, starts, j)
    requires starts[k] <= |plan|
    ensures CacheKeys(plan[starts[k]..]) == BodyKeys(keys, segments, k)
    decreases |segments| - k
  {
    if k < |segments| {
      assert KeyedAt(plan, segments, keys, starts, k);
      var i := starts[k];
      KeysInOrder(plan, segments, keys, starts, k + 1);
      if segments[k].Body? {
        assert plan[i..][0] == plan[i] && plan[i..][1..] == plan[i + 1..];
      } else {
        SkipHeads(plan, i, starts[k + 1]);
      }
    }
  }

  // ----- the plan's keys are the segments' keys -----

  function PartsOf(script: Script, headingMax: nat, segments: seq<Segment>): (parts: seq<seq<Chunk>>)
    ensures |parts| == |segments|
    ensures forall k | 0 <= k < |parts| :: parts[k] == Expanded(script, headingMax, segments[k])
  {
    seq(|segments|, k requires 0 <= k < |segments| => Expanded(script, headingMax, segments[k]))
  }

  lemma {:induction false} PartsAreChunks(script: Script, headingMax: nat, segments: seq<Segment>)
    ensures Flatten(PartsOf(script, headingMax, segments)) == ExpandedAll(script, headingMax, segments)
  {
    if segments != [] {
      PartsAreChunks(script, headingMax, segments[1..]);
      assert PartsOf(script, headingMax, segments)[1..] == PartsOf(script, headingMax, segments[1..]);
    }
  }

  lemma PartsFit(script: Script, headingMax: nat, segments: seq<Segment>, k: nat)
    requires WellFormed(segments) && k < |segments|
    ensures var part := PartsOf(script, headingMax, segments)[k];
      part != [] && forall m | 0 <= m < |part| :: part[m].kind.BodyChunk? == segments[k].Body?
  {
    if segments[k].Head? {
      HeadTextsFit(script, segments[k].text, AtLeastOne(headingMax));
    }
  }

  lemma BodyAt(script: Script, headingMax: nat, segments: seq<Segment>, chunks: seq<Chunk>, starts: seq<nat>, k: nat)
    requires k < |segments| && segments[k].Body? && LaidOut(PartsOf(script, headingMax, segments), chunks, starts)
    ensures starts[k] < |chunks| && chunks[starts[k]] == Chunk(BodyChunk, segments[k].text) && starts[k + 1] == starts[k] + 1
  {
    FirstOfPart(PartsOf(script, headingMax, segments), chunks, starts, k);
  }

  lemma LastRequestAt(script: Script, options: BuildOptions, segments: seq<Segment>, chunks: seq<Chunk>, starts: seq<nat>, k: nat)
    requires WellFormed(segments) && k < |segments| && LaidOut(PartsOf(script, HeadingMaxChars(options), segments), chunks, starts)
    ensures 0 < starts[k + 1] <= |chunks|
    ensures LastRequest(script, options, segments[k]) == RequestText(chunks[starts[k + 1] - 1], options)
  {
    PartsFit(script, HeadingMaxChars(options), segments, k);
    FirstOfPart(PartsOf(script, HeadingMaxChars(options), segments), chunks, starts, k);
  }

  lemma LentBeforeAt(script: Script, options: BuildOptions, segments: seq<Segment>, chunks: seq<Chunk>, starts: seq<nat>, k: nat)
    requires WellFormed(segments) && k < |segments| && LaidOut(PartsOf(script, HeadingMaxChars(options), segments), chunks, starts)
    requires starts[k] < |chunks|
    ensures LentBefore(chunks, options, starts[k]) == Before(script, options, segments, k)
  {
    if k > 0 {
      LastRequestAt(script, options, segments, chunks, starts, k - 1);
    }
  }

  lemma LentAfterAt(script: Script, options: BuildOptions, segments: seq<Segment>, chunks: seq<Chunk>, starts: seq<nat>, k: nat)
    requires WellFormed(segments) && k < |segments| && LaidOut(PartsOf(script, HeadingMaxChars(options), segments), chunks, starts)
    requires starts[k] < |chunks| && starts[k + 1] == starts[k] + 1
    ensures LentAfter(chunks, options, starts[k]) == After(script, options, segments, k)
  {
    if k + 1 < |segments| {
      PartsFit(script, HeadingMaxChars(options), segments, k + 1);
      FirstOfPart(PartsOf(script, HeadingMaxChars(options), segments), chunks, starts, k + 1);
    }
  }

  lemma SegmentIsKeyed(script: Script, digest: Digest, chapter: Chapter, options: BuildOptions, segments: seq<Segment>, starts: seq<nat>, k: nat)
    requires WellFormed(segments) && k < |segments|
    requires LaidOut(PartsOf(script, HeadingMaxChars(options), segments), ChapterChunks(script, chapter, options), starts)
    ensures KeyedAt(ChapterPlan(script, digest, chapter, options), segments, KeysOf(script, digest, options, segments), starts, k)
  {
    var chunks := ChapterChunks(script, chapter, options);
    var parts := PartsOf(script, HeadingMaxChars(options), segments);
    assert PartAt(parts, chunks, starts, k);
    if segments[k].Body? {
      BodyAt(script, HeadingMaxChars(options), segments, chunks, starts, k);
      LentBeforeAt(script, options, segments, chunks, starts, k);
      LentAfterAt(script, options, segments, chunks, starts, k);
      RecordAt(script, digest, chapter, options, starts[k]);
    } else {
      PartsFit(script, HeadingMaxChars(options), segments, k);
      forall i | starts[k] <= i < starts[k + 1] ensures !ChapterPlan(script, digest, chapter, options)[i].kind.BodyChunk? {
        RecordAt(script, digest, chapter, options, i);
        assert chunks[starts[k]..starts[k + 1]][i - starts[k]] == chunks[i];
      }
    }
  }

  /** The cache keys of a chapter's body chunks, matched by the body chunks before them, are the keys of its body segments. */
  lemma KeysOfPlan(script: Script, digest: Digest, chapter: Chapter, options: BuildOptions)
    ensures WellFormed(SegmentsOf(script, chapter, options))
    ensures var segments := SegmentsOf(script, chapter, options);
      CacheKeys(ChapterPlan(script, digest, chapter, options)) == BodyKeys(KeysOf(script, digest, options, segments), segments, 0)
  {
    var segments, plan := SegmentsOf(script, chapter, options), ChapterPlan(script, digest, chapter, options);
    ChunksAreExpanded(script, chapter.blocks, options.maxChars, HeadingMaxChars(options), []);
    PartsAreChunks(script, HeadingMaxChars(options), segments);
    var starts := LayOut(PartsOf(script, HeadingMaxChars(options), segments));
    forall k | 0 <= k < |segments| ensures KeyedAt(plan, segments, KeysOf(script, digest, options, segments), starts, k) {
      SegmentIsKeyed(script, digest, chapter, options, segments, starts, k);
    }
    KeysInOrder(plan, segments, KeysOf(script, digest, options, segments), starts, 0);
    assert plan[0..] == plan;
  }
}
