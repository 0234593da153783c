/** What a heading break tag changes about the body chunks around it, exactly
    (crates/bookforge-audio/src/builder.rs:312-384, 1027-1056). */
module BreakTags {
  import opened Options
  import opened Strings
  import opened Sentences
  import opened Packing
  import opened LongUnits
  import opened Chunking
  import opened Planning
  import opened PlanProperties

  function Retagged(options: BuildOptions, tag: Option<string>): BuildOptions {
    options.(headingBreakTag := tag)
  }

  ghost predicate Injective(digest: Digest) {
    forall a, b :: digest(a) == digest(b) ==> a == b
  }

  // ----- one record -----

  /** What the request of the chunk before `k` lends it. */
  function LentBefore(chunks: seq<Chunk>, options: BuildOptions, k: nat): Option<string>
    requires k < |chunks|
  {
    if k == 0 then None else ContextSlice(RequestText(chunks[k - 1], options), options.contextChars, true)
  }

  /** What the request of the chunk after `k` lends it. */
  function LentAfter(chunks: seq<Chunk>, options: BuildOptions, k: nat): Option<string>
    requires k < |chunks|
  {
    if k + 1 == |chunks| then None else ContextSlice(RequestText(chunks[k + 1], options), options.contextChars, false)
  }

  /** The record of the chunk at `k`. */
  function RecordOf(digest: Digest, chapter: Chapter, chunks: seq<Chunk>, options: BuildOptions, k: nat): PlannedChunk
    requires k < |chunks|
  {
    var text, previousText, nextText := RequestText(chunks[k], options), LentBefore(chunks, options, k), LentAfter(chunks, options, k);
    var hash := SynthesisHash(digest, options, text, chunks[k].kind, previousText, nextText);
    PlannedChunk(chapter.index, chapter.title, k + 1, chunks[k].kind, text, previousText, nextText, hash,
                 FileName(chapter.index, k + 1, hash, options.format.Extension()))
  }

  lemma DraftAt(digest: Digest, chapter: Chapter, chunks: seq<Chunk>, options: BuildOptions, k: nat)
    requires k < |chunks|
    ensures var drafts := DraftsOf(chapter, chunks, options);
      Completed(digest, options, drafts[k], At(drafts, k - 1), At(drafts, k + 1)) == RecordOf(digest, chapter, chunks, options, k)
  {
    var drafts := DraftsOf(chapter, chunks, options);
    assert drafts[k] == Draft(chapter, k + 1, chunks[k], options);
    assert k > 0 ==> drafts[k - 1] == Draft(chapter, k, chunks[k - 1], options);
    assert k + 1 < |chunks| ==> drafts[k + 1] == Draft(chapter, k + 2, chunks[k + 1], options);
    assert Neighbour(At(drafts, k - 1), chapter.index, options.contextChars, true) == LentBefore(chunks, options, k);
    assert Neighbour(At(drafts, k + 1), chapter.index, options.contextChars, false) == LentAfter(chunks, options, k);
  }

  lemma RecordAt(script: Script, digest: Digest, chapter: Chapter, options: BuildOptions, k: nat)
    requires k < |ChapterChunks(script, chapter, options)|
    ensures ChapterPlan(script, digest, chapter, options)[k]
         == RecordOf(digest, chapter, ChapterChunks(script, chapter, options), options, k)
  {
    var chunks := ChapterChunks(script, chapter, options);
    var drafts := DraftsOf(chapter, chunks, options);
    CompletedAllIsPointwise(digest, options, None, drafts);
    DraftAt(digest, chapter, chunks, options, k);
    assert At(drafts, k - 1) == if k == 0 then None else Some(drafts[k - 1]);
  }

  ghost predicate SameContext(chunks1: seq<Chunk>, options1: BuildOptions, a: nat, chunks2: seq<Chunk>, options2: BuildOptions, b: nat)
    requires a < |chunks1| && b < |chunks2|
  {
    && LentBefore(chunks1, options1, a) == LentBefore(chunks2, options2, b)
    && LentAfter(chunks1, options1, a) == LentAfter(chunks2, options2, b)
  }

  /** A body chunk keeps its cache identity under another break tag if and only if its neighbours lend it the same
      context, and its whole record, file name included, if and only if its part number stays the same too. */
  lemma BodyRecordIff(script: Script, digest: Digest, chapter: Chapter, options: BuildOptions, tag: Option<string>, a: nat, b: nat)
    requires Injective(digest)
    requires var chunks1, chunks2 := ChapterChunks(script, chapter, options), ChapterChunks(script, chapter, Retagged(options, tag));
      a < |chunks1| && b < |chunks2| && chunks1[a] == chunks2[b] && chunks1[a].kind.BodyChunk?
    ensures var chunks1, chunks2 := ChapterChunks(script, chapter, options), ChapterChunks(script, chapter, Retagged(options, tag));
      var record1 := ChapterPlan(script, digest, chapter, options)[a];
      var record2 := ChapterPlan(script, digest, chapter, Retagged(options, tag))[b];
      && (record1.synthesis == record2.synthesis <==> SameContext(chunks1, options, a, chunks2, Retagged(options, tag), b))
      && (record1 == record2 <==> a == b && SameContext(chunks1, options, a, chunks2, Retagged(options, tag), b))
  {
    var other := Retagged(options, tag);
    RecordAt(script, digest, chapter, options, a);
    RecordAt(script, digest, chapter, other, b);
    RecordsIff(digest, chapter, ChapterChunks(script, chapter, options), options, a, ChapterChunks(script, chapter, other), other, b);
  }

  lemma RecordsIff(digest: Digest, chapter: Chapter, chunks1: seq<Chunk>, options: BuildOptions, a: nat,
                   chunks2: seq<Chunk>, other: BuildOptions, b: nat)
    requires Injective(digest) && other == Retagged(options, other.headingBreakTag)
    requires a < |chunks1| && b < |chunks2| && chunks1[a] == chunks2[b] && chunks1[a].kind.BodyChunk?
    ensures var record1, record2 := RecordOf(digest, chapter, chunks1, options, a), RecordOf(digest, chapter, chunks2, other, b);
      && (record1.synthesis == record2.synthesis <==> SameContext(chunks1, options, a, chunks2, other, b))
      && (record1 == record2 <==> a == b && SameContext(chunks1, options, a, chunks2, other, b))
  {
    HashIff(digest, options, other, chunks1[a].text, BodyChunk, LentBefore(chunks1, options, a), LentAfter(chunks1, options, a),
            LentBefore(chunks2, other, b), LentAfter(chunks2, other, b));
  }

  lemma HashIff(digest: Digest, options: BuildOptions, other: BuildOptions, text: string, kind: ChunkKind,
                before1: Option<string>, after1: Option<string>, before2: Option<string>, after2: Option<string>)
    requires Injective(digest) && other == Retagged(options, other.headingBreakTag)
    requires before1 != Some("") && after1 != Some("") && before2 != Some("") && after2 != Some("")
    ensures SynthesisHash(digest, options, text, kind, before1, after1) == SynthesisHash(digest, other, text, kind, before2, after2)
       <==> before1 == before2 && after1 == after2
  {
    var fields1 := Fields(options, text, kind, before1, after1);
    var fields2 := Fields(other, text, kind, before2, after2);
    assert fields1[10] == OrEmpty(before1) && fields1[11] == OrEmpty(after1);
    assert fields2[10] == OrEmpty(before2) && fields2[11] == OrEmpty(after2);
    assert digest(fields1) == SynthesisHash(digest, options, text, kind, before1, after1);
    assert digest(fields2) == SynthesisHash(digest, other, text, kind, before2, after2);
  }

  /** What the hash is taken of. */
  function Fields(options: BuildOptions, text: string, kind: ChunkKind, before: Option<string>, after: Option<string>): seq<string> {
    ["bookforge-audio-v2", options.synthesisId, options.voice, options.format.Extension(), options.speedText,
     options.instructions, text, options.seedText, options.language, options.normalization,
     OrEmpty(before), OrEmpty(after), KindText(kind)]
  }

  // ----- all body chunks -----

  /** What a chunk's audio depends on. */
  datatype Identity = Identity(text: string, previousText: Option<string>, nextText: Option<string>, synthesis: string)

  function IdentityOf(record: PlannedChunk): Identity {
    Identity(record.text, record.previousText, record.nextText, record.synthesis)
  }

  function BodyIdentities(plan: seq<PlannedChunk>): seq<Identity> {
    if plan == [] then []
    else if plan[0].kind.BodyChunk? then [IdentityOf(plan[0])] + BodyIdentities(plan[1..])
    else BodyIdentities(plan[1..])
  }

  function MapChunks(identity: Chunk -> Identity, chunks: seq<Chunk>): seq<Identity> {
    if chunks == [] then [] else [identity(chunks[0])] + MapChunks(identity, chunks[1..])
  }

  /** The identity of a chunk without context. */
  function Plain(digest: Digest, options: BuildOptions): Chunk -> Identity {
    (chunk: Chunk) => Identity(chunk.text, None, None, SynthesisHash(digest, options, chunk.text, chunk.kind, None, None))
  }

  ghost predicate Describes(identity: Chunk -> Identity, record: PlannedChunk, chunk: Chunk) {
    record.kind == chunk.kind && (chunk.kind.BodyChunk? ==> IdentityOf(record) == identity(chunk))
  }

  lemma {:induction false} BodiesDescribed(identity: Chunk -> Identity, plan: seq<PlannedChunk>, chunks: seq<Chunk>)
    requires |plan| == |chunks| && forall k | 0 <= k < |plan| :: Describes(identity, plan[k], chunks[k])
    ensures BodyIdentities(plan) == MapChunks(identity, OfKind(chunks, true))
  {
    if plan != [] {
      BodiesDescribed(identity, plan[1..], chunks[1..]);
      assert Describes(identity, plan[0], chunks[0]);
      if chunks[0].kind.BodyChunk? {
        assert ([chunks[0]] + OfKind(chunks[1..], true))[1..] == OfKind(chunks[1..], true);
      } else {
        assert [] + OfKind(chunks[1..], true) == OfKind(chunks[1..], true);
      }
    }
  }

  /** Without neighbour context the body chunks of a chapter keep their cache identities whatever the break tag, even where
      it cuts a heading into more parts. */
  lemma BreakTagKeepsIdentities(script: Script, digest: Digest, chapter: Chapter, options: BuildOptions, tag: Option<string>)
    requires options.contextChars == 0
    ensures BodyIdentities(ChapterPlan(script, digest, chapter, options))
         == BodyIdentities(ChapterPlan(script, digest, chapter, Retagged(options, tag)))
  {
    IdentitiesWithoutContext(script, digest, chapter, options);
    IdentitiesWithoutContext(script, digest, chapter, Retagged(options, tag));
    BreakTagKeepsBody(script, chapter, options, tag);
    SamePlain(digest, options, tag, OfKind(ChapterChunks(script, chapter, options), true));
  }

  lemma IdentitiesWithoutContext(script: Script, digest: Digest, chapter: Chapter, options: BuildOptions)
    requires options.contextChars == 0
    ensures BodyIdentities(ChapterPlan(script, digest, chapter, options))
         == MapChunks(Plain(digest, options), OfKind(ChapterChunks(script, chapter, options), true))
  {
    var plan, chunks := ChapterPlan(script, digest, chapter, options), ChapterChunks(script, chapter, options);
    forall k | 0 <= k < |plan| ensures Describes(Plain(digest, options), plan[k], chunks[k]) {
      RecordAt(script, digest, chapter, options, k);
    }
    BodiesDescribed(Plain(digest, options), plan, chunks);
  }

  lemma {:induction false} SamePlain(digest: Digest, options: BuildOptions, tag: Option<string>, chunks: seq<Chunk>)
    ensures MapChunks(Plain(digest, options), chunks) == MapChunks(Plain(digest, Retagged(options, tag)), chunks)
  {
    if chunks != [] {
      SamePlain(digest, options, tag, chunks[1..]);
      assert Plain(digest, options)(chunks[0]) == Plain(digest, Retagged(options, tag))(chunks[0]);
    }
  }

  // ----- inputs with which the tag changes a body chunk -----

  function HeadAndBody(heading: string): Chapter {
    Chapter(0, "", [Block(BlockKind.Heading(1), heading), Block(Paragraph, "x")])
  }

  lemma OneLetterSplit(script: Script)
    ensures Split(script, "x") == ["x"]
  {
    var text := "x";
    assert Step(script, text, 0, "") == Turn([], 1, text);
    assert Pieces(script, text, 1, text) == [text];
    assert [] + [text] == [text];
    TrimmedOne(text);
    assert Trim(text) == text;
  }

  lemma OneUnitPack(unit: string, separator: string, max: nat, hard: HardSplit)
    requires 0 < |unit| <= max
    ensures Pack([unit], separator, max, hard, "") == [unit]
  {
    assert [unit][1..] == [];
  }

  lemma OneLetterBody(script: Script, maxChars: nat)
    ensures FlushParagraphs(script, ["x"], maxChars) == [Chunk(BodyChunk, "x")]
  {
    OneLetterSplit(script);
    OneUnitPack("x", " ", AtLeastOne(maxChars), HardUnits(script, AtLeastOne(maxChars)));
  }

  lemma HeadThenBody(script: Script, heading: string, options: BuildOptions)
    ensures ChapterChunks(script, HeadAndBody(heading), options)
         == HeadChunks(script, Block(BlockKind.Heading(1), heading), HeadingMaxChars(options)) + [Chunk(BodyChunk, "x")]
  {
    var blocks := HeadAndBody(heading).blocks;
    var max, head := options.maxChars, HeadingMaxChars(options);
    OneLetterBody(script, max);
    assert blocks[1..] == [Block(Paragraph, "x")] && blocks[1..][1..] == [];
    assert [] + ["x"] == ["x"];
    assert BlockChunks(script, [], max, head, ["x"]) == [Chunk(BodyChunk, "x")];
    assert BlockChunks(script, blocks[1..], max, head, []) == [Chunk(BodyChunk, "x")];
    assert [] + HeadChunks(script, blocks[0], head) == HeadChunks(script, blocks[0], head);
  }

  lemma TwoLetterPieces(script: Script)
    requires script.isSpaceDelimited("H H")
    ensures LongUnitPieces(script, "H H", 2) == ["H", "H"]
  {
    var text := "H H";
    assert text[1..] == " H" && text[1..][1..] == "H" && text[1..][1..][1..] == "";
    assert WordsFrom("", "H") == ["H"];
    assert [] + ["H"] == ["H"] && "" + "H" == "H";
    assert WordsFrom("H", "") == ["H"];
    assert WordsFrom(" H", "H") == ["H"] + ["H"];
    assert Words(text) == ["H", "H"];
    assert ["H", "H"][1..] == ["H"] && ["H"][1..] == [];
    assert Pack(["H"], " ", 2, HardSlices(2), "H") == ["H"] + ["H"];
  }

  lemma UncutHead(script: Script, options: BuildOptions)
    requires HeadingMaxChars(options) >= 3
    ensures ChapterChunks(script, HeadAndBody("H H"), options) == [Chunk(HeadingChunk, "H H"), Chunk(BodyChunk, "x")]
  {
    assert Trim("H H") == "H H";
    HeadThenBody(script, "H H", options);
  }

  lemma CutHead(script: Script, options: BuildOptions)
    requires script.isSpaceDelimited("H H") && HeadingMaxChars(options) == 2
    ensures ChapterChunks(script, HeadAndBody("H H"), options)
         == [Chunk(HeadingChunk, "H"), Chunk(HeadingChunk, "H"), Chunk(BodyChunk, "x")]
  {
    assert Trim("H H") == "H H";
    TwoLetterPieces(script);
    HeadThenBody(script, "H H", options);
  }

  lemma OtherPartOtherName(c: nat, p1: nat, hash1: string, p2: nat, hash2: string, extension: string)
    requires p1 != p2
    ensures FileName(c, p1, hash1, extension) != FileName(c, p2, hash2, extension)
  {
    if FileName(c, p1, hash1, extension) == FileName(c, p2, hash2, extension) {
      FileNameDetermines(c, p1, hash1, extension, c, p2, hash2, extension);
    }
  }

  /** A tag that leaves the heading "H H" too little room cuts it in two, and the paragraph behind it gets another part
      number and so another file name, with or without context. */
  lemma TagMovesParts(script: Script, digest: Digest, options: BuildOptions)
    requires script.isSpaceDelimited("H H") && options.maxChars == 6
    ensures var plan1 := ChapterPlan(script, digest, HeadAndBody("H H"), Retagged(options, None));
      var plan2 := ChapterPlan(script, digest, HeadAndBody("H H"), Retagged(options, Some("<b>")));
      && |plan1| == 2 && |plan2| == 3 && plan1[1].kind == plan2[2].kind == BodyChunk
      && plan1[1].text == plan2[2].text && plan1[1].file != plan2[2].file
  {
    var untagged, tagged := Retagged(options, None), Retagged(options, Some("<b>"));
    UncutHead(script, untagged);
    CutHead(script, tagged);
    RecordAt(script, digest, HeadAndBody("H H"), untagged, 1);
    RecordAt(script, digest, HeadAndBody("H H"), tagged, 2);
    var record1 := ChapterPlan(script, digest, HeadAndBody("H H"), untagged)[1];
    var record2 := ChapterPlan(script, digest, HeadAndBody("H H"), tagged)[2];
    OtherPartOtherName(0, 2, record1.synthesis, 3, record2.synthesis, options.format.Extension());
  }

  // ----- the room for the tag that validation asks for -----

  ghost predicate AllRequestsFit(script: Script, digest: Digest, options: BuildOptions) {
    forall chapters, k: nat | k < |Plan(script, digest, chapters, options)| ::
      |Plan(script, digest, chapters, options)[k].text| <= options.maxChars
  }

  lemma PlanOfOne(script: Script, digest: Digest, chapter: Chapter, options: BuildOptions)
    requires Selected(chapter, options)
    ensures Plan(script, digest, [chapter], options) == ChapterPlan(script, digest, chapter, options)
  {
    var chapters := [chapter];
    PlanIsByChapter(script, digest, chapters, options);
    assert chapters[1..] == [] && PlanByChapter(script, digest, [], options) == [];
    var plan := ChapterPlan(script, digest, chapter, options);
    assert plan + [] == plan;
  }

  lemma OneLetterOverflows(script: Script, digest: Digest, options: BuildOptions)
    requires options.maxChars > 0 && options.chapterFilter == None && !HasRoom(options)
    ensures var plan := Plan(script, digest, [HeadAndBody("H")], options);
      |plan| > 0 && |plan[0].text| > options.maxChars
  {
    var chapter := HeadAndBody("H");
    assert Trim("H") == "H" && Trim(chapter.blocks[0].text) != "";
    HeadThenBody(script, "H", options);
    assert ChapterChunks(script, chapter, options)[0] == Chunk(HeadingChunk, "H");
    RecordAt(script, digest, chapter, options, 0);
    PlanOfOne(script, digest, chapter, options);
  }

  /** Options that pass validation never make a request that is too long. */
  lemma AcceptedOptionsFit(script: Script, digest: Digest, options: BuildOptions)
    requires ValidateOptions(options).Ok?
    ensures AllRequestsFit(script, digest, options)
  {
    forall chapters, k: nat | k < |Plan(script, digest, chapters, options)|
      ensures |Plan(script, digest, chapters, options)[k].text| <= options.maxChars
    {
      RequestsFit(script, digest, chapters, options, k);
    }
  }

  /** Every request of every book fits the limit if and only if the limit leaves room for a character beside the break tag
      and its space, which is what validation asks for. */
  lemma RoomIsExact(script: Script, digest: Digest, options: BuildOptions)
    requires options.maxChars > 0 && options.chapterFilter == None
    ensures HasRoom(options) <==> AllRequestsFit(script, digest, options)
  {
    if HasRoom(options) {
      forall chapters, k: nat | k < |Plan(script, digest, chapters, options)|
        ensures |Plan(script, digest, chapters, options)[k].text| <= options.maxChars
      {
        RequestsFit(script, digest, chapters, options, k);
      }
    } else {
      OneLetterOverflows(script, digest, options);
    }
  }
}
