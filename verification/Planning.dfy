/** The deterministic chunk plan of a book (crates/bookforge-audio/src/builder.rs:280-410, 1018-1124). */
module Planning {
  import opened Options
  import opened Strings
  import opened Sentences
  import opened Chunking
  import opened Numbers

  datatype Format = Mp3 | Opus | Aac | Flac | Wav | Pcm {
    function Extension(): string {
      match this
      case Mp3 => "mp3"
      case Opus => "opus"
      case Aac => "aac"
      case Flac => "flac"
      case Wav => "wav"
      case Pcm => "pcm"
    }
  }

  /** The options that shape the plan; `speedText` and `seedText` are the texts that enter the synthesis hash. */
  datatype BuildOptions = BuildOptions(
    voice: string,
    format: Format,
    speed: real,
    speedText: string,
    maxChars: nat,
    concurrency: nat,
    synthesisId: string,
    instructions: string,
    contextChars: nat,
    seedText: string,
    language: string,
    normalization: string,
    headingBreakTag: Option<string>,
    chapterFilter: Option<set<nat>>)

  datatype Chapter = Chapter(index: nat, title: string, blocks: seq<Block>)

  /** The hexadecimal digest of a list of length-prefixed values. */
  type Digest = seq<string> -> string

  datatype PlannedChunk = PlannedChunk(
    chapterIndex: nat,
    chapterTitle: string,
    part: nat,
    kind: ChunkKind,
    text: string,
    previousText: Option<string>,
    nextText: Option<string>,
    synthesis: string,
    file: string)

  // ----- options -----

  /** What a heading break tag adds to a title or heading: itself and the space before it. */
  function HeadingBreakOverhead(options: BuildOptions): nat {
    if options.headingBreakTag.None? || options.headingBreakTag.value == "" then 0 else |options.headingBreakTag.value| + 1
  }

  datatype OptionsError = EmptyVoice | EmptySynthesisId | ZeroMaxChars | NoRoomForHeading | ZeroConcurrency | SpeedOutOfRange

  function ValidateOptions(options: BuildOptions): (r: Result<(), OptionsError>)
    ensures r.Ok? <==>
      && Trim(options.voice) != "" && Trim(options.synthesisId) != ""
      && HeadingBreakOverhead(options) < options.maxChars && options.concurrency > 0 && 0.25 <= options.speed <= 4.0
  {
    if Trim(options.voice) == "" then Err(EmptyVoice)
    else if Trim(options.synthesisId) == "" then Err(EmptySynthesisId)
    else if options.maxChars == 0 then Err(ZeroMaxChars)
    else if HeadingBreakOverhead(options) >= options.maxChars then Err(NoRoomForHeading)
    else if options.concurrency == 0 then Err(ZeroConcurrency)
    else if !(0.25 <= options.speed <= 4.0) then Err(SpeedOutOfRange)
    else Ok(())
  }

  function HeadingMaxChars(options: BuildOptions): nat {
    var overhead := HeadingBreakOverhead(options);
    if overhead >= options.maxChars then 0 else options.maxChars - overhead
  }

  // ----- the chunks of the selected chapters -----

  predicate IsEmpty(chapter: Chapter) {
    forall k | 0 <= k < |chapter.blocks| :: Trim(chapter.blocks[k].text) == ""
  }

  predicate Selected(chapter: Chapter, options: BuildOptions) {
    !IsEmpty(chapter) && (options.chapterFilter.Some? ==> chapter.index + 1 in options.chapterFilter.value)
  }

  function RequestText(chunk: Chunk, options: BuildOptions): string {
    if !chunk.kind.BodyChunk? && options.headingBreakTag.Some? && options.headingBreakTag.value != ""
    then chunk.text + " " + options.headingBreakTag.value
    else chunk.text
  }

  function Draft(chapter: Chapter, part: nat, chunk: Chunk, options: BuildOptions): PlannedChunk {
    PlannedChunk(chapter.index, chapter.title, part, chunk.kind, RequestText(chunk, options), None, None, "", "")
  }

  function ChapterChunks(script: Script, chapter: Chapter, options: BuildOptions): seq<Chunk> {
    Chunks(script, chapter.blocks, options.maxChars, HeadingMaxChars(options))
  }

  /** One draft for each of a chapter's chunks, numbered from 1. */
  function DraftsOf(chapter: Chapter, chunks: seq<Chunk>, options: BuildOptions): (drafts: seq<PlannedChunk>)
    ensures |drafts| == |chunks|
  {
    seq(|chunks|, k requires 0 <= k < |chunks| => Draft(chapter, k + 1, chunks[k], options))
  }

  function ChapterDrafts(script: Script, chapter: Chapter, options: BuildOptions): seq<PlannedChunk> {
    DraftsOf(chapter, ChapterChunks(script, chapter, options), options)
  }

  function SelectedDrafts(script: Script, chapter: Chapter, options: BuildOptions): seq<PlannedChunk> {
    if Selected(chapter, options) then ChapterDrafts(script, chapter, options) else []
  }

  function Drafts(script: Script, chapters: seq<Chapter>, options: BuildOptions): seq<PlannedChunk> {
    if chapters == [] then [] else SelectedDrafts(script, chapters[0], options) + Drafts(script, chapters[1..], options)
  }

  // ----- neighbour context, hash and file name -----

  function ContextSlice(text: string, chars: nat, fromEnd: bool): Option<string> {
    if chars == 0 || text == "" then None
    else if |text| <= chars then Some(text)
    else if fromEnd then Some(text[|text| - chars..])
    else Some(text[..chars])
  }

  function KindText(kind: ChunkKind): string {
    match kind
    case TitleChunk => "title"
    case HeadingChunk => "heading"
    case BodyChunk => "body"
  }

  function OrEmpty(text: Option<string>): string {
    if text.Some? then text.value else ""
  }

  function SynthesisHash(digest: Digest, options: BuildOptions, text: string, kind: ChunkKind,
                         previousText: Option<string>, nextText: Option<string>): string {
    digest(["bookforge-audio-v2", options.synthesisId, options.voice, options.format.Extension(), options.speedText,
            options.instructions, text, options.seedText, options.language, options.normalization,
            OrEmpty(previousText), OrEmpty(nextText), KindText(kind)])
  }

  function Sixteen(hash: string): string {
    if |hash| <= 16 then hash else hash[..16]
  }

  function FileName(chapterIndex: nat, part: nat, hash: string, extension: string): string {
    "chapter-" + (Padded(chapterIndex + 1) + ("-part-" + (Padded(part) + ("-" + Sixteen(hash) + "." + extension))))
  }

  /** The context a neighbour lends: none across a chapter boundary. */
  function Neighbour(other: Option<PlannedChunk>, chapterIndex: nat, chars: nat, fromEnd: bool): Option<string> {
    if other.Some? && other.value.chapterIndex == chapterIndex then ContextSlice(other.value.text, chars, fromEnd) else None
  }

  function Completed(digest: Digest, options: BuildOptions, draft: PlannedChunk,
                     previous: Option<PlannedChunk>, next: Option<PlannedChunk>): PlannedChunk {
    var previousText := Neighbour(previous, draft.chapterIndex, options.contextChars, true);
    var nextText := Neighbour(next, draft.chapterIndex, options.contextChars, false);
    var hash := SynthesisHash(digest, options, draft.text, draft.kind, previousText, nextText);
    draft.(previousText := previousText, nextText := nextText, synthesis := hash,
           file := FileName(draft.chapterIndex, draft.part, hash, options.format.Extension()))
  }

  function First(drafts: seq<PlannedChunk>): Option<PlannedChunk> {
    if drafts == [] then None else Some(drafts[0])
  }

  /** All drafts completed, `previous` being the one before the first. */
  function CompletedAll(digest: Digest, options: BuildOptions, previous: Option<PlannedChunk>, drafts: seq<PlannedChunk>): (r: seq<PlannedChunk>)
    ensures |r| == |drafts|
    decreases |drafts|
  {
    if drafts == [] then []
    else
      var first := Completed(digest, options, drafts[0], previous, First(drafts[1..]));
      [first] + CompletedAll(digest, options, Some(drafts[0]), drafts[1..])
  }

  function Plan(script: Script, digest: Digest, chapters: seq<Chapter>, options: BuildOptions): seq<PlannedChunk> {
    CompletedAll(digest, options, None, Drafts(script, chapters, options))
  }

  // ----- the loops -----

  method BuildPlan(script: Script, digest: Digest, chapters: seq<Chapter>, options: BuildOptions) returns (planned: seq<PlannedChunk>)
    ensures planned == Plan(script, digest, chapters, options)
  {
    planned := [];
    ghost var whole := Drafts(script, chapters, options);
    assert [] + Drafts(script, chapters[0..], options) == whole;
    for k := 0 to |chapters|
      invariant planned + Drafts(script, chapters[k..], options) == whole
    {
      var chapter := chapters[k];
      NextChapter(script, planned, chapters, k, options);
      if Selected(chapter, options) {
        var chunks := ChunkBlocksWithHeadingLimit(script, chapter.blocks, options.maxChars, HeadingMaxChars(options));
        planned := PushDrafts(planned, chapter, chunks, options);
      } else {
        assert planned + [] == planned;
      }
    }
    NoChapterLeft(script, planned, chapters, options);
    planned := CompleteInPlace(digest, planned, options);
  }

  lemma NoChapterLeft(script: Script, pushed: seq<PlannedChunk>, chapters: seq<Chapter>, options: BuildOptions)
    ensures pushed + Drafts(script, chapters[|chapters|..], options) == pushed
  {
  }

  lemma NextChapter(script: Script, pushed: seq<PlannedChunk>, chapters: seq<Chapter>, k: nat, options: BuildOptions)
    requires k < |chapters|
    ensures pushed + Drafts(script, chapters[k..], options)
         == (pushed + SelectedDrafts(script, chapters[k], options)) + Drafts(script, chapters[k + 1..], options)
  {
    assert chapters[k..][0] == chapters[k] && chapters[k..][1..] == chapters[k + 1..];
    Regroup(pushed, SelectedDrafts(script, chapters[k], options), Drafts(script, chapters[k + 1..], options));
  }

  lemma NextDraft(chapter: Chapter, chunks: seq<Chunk>, options: BuildOptions, part: nat)
    requires part < |chunks|
    ensures DraftsOf(chapter, chunks, options)[..part + 1]
         == DraftsOf(chapter, chunks, options)[..part] + [Draft(chapter, part + 1, chunks[part], options)]
  {
  }

  method PushDrafts(pushed: seq<PlannedChunk>, chapter: Chapter, chunks: seq<Chunk>, options: BuildOptions)
    returns (planned: seq<PlannedChunk>)
    ensures planned == pushed + DraftsOf(chapter, chunks, options)
  {
    planned := pushed;
    for part := 0 to |chunks|
      invariant planned == pushed + DraftsOf(chapter, chunks, options)[..part]
    {
      var text := chunks[part].text;
      if !chunks[part].kind.BodyChunk? && options.headingBreakTag.Some? && options.headingBreakTag.value != "" {
        text := text + " ";
        text := text + options.headingBreakTag.value;
      }
      assert text == RequestText(chunks[part], options);
      NextDraft(chapter, chunks, options, part);
      planned := planned + [PlannedChunk(chapter.index, chapter.title, part + 1, chunks[part].kind, text, None, None, "", "")];
    }
  }

  ghost predicate SameTexts(planned: seq<PlannedChunk>, drafts: seq<PlannedChunk>) {
    && |planned| == |drafts|
    && forall k | 0 <= k < |drafts| :: planned[k].text == drafts[k].text && planned[k].chapterIndex == drafts[k].chapterIndex
  }

  /** Fill in the chunk at `index`, reading its neighbours where they stand. */
  method CompleteOne(digest: Digest, ghost drafts: seq<PlannedChunk>, planned: seq<PlannedChunk>, index: nat, options: BuildOptions)
    returns (complete: PlannedChunk)
    requires SameTexts(planned, drafts) && index < |planned| && planned[index] == drafts[index]
    ensures complete == CompletedAt(digest, options, drafts, index)
  {
    var previousText := None;
    if index >= 1 && planned[index - 1].chapterIndex == planned[index].chapterIndex {
      previousText := ContextSlice(planned[index - 1].text, options.contextChars, true);
    }
    var nextText := None;
    if index + 1 < |planned| && planned[index + 1].chapterIndex == planned[index].chapterIndex {
      nextText := ContextSlice(planned[index + 1].text, options.contextChars, false);
    }
    assert previousText == Neighbour(At(drafts, index - 1), drafts[index].chapterIndex, options.contextChars, true);
    assert nextText == Neighbour(At(drafts, index + 1), drafts[index].chapterIndex, options.contextChars, false);
    var hash := SynthesisHash(digest, options, planned[index].text, planned[index].kind, previousText, nextText);
    var fileName := FileName(planned[index].chapterIndex, planned[index].part, hash, options.format.Extension());
    complete := planned[index].(previousText := previousText, nextText := nextText, synthesis := hash, file := fileName);
  }

  /** The first `count` chunks are filled in. */
  ghost predicate AreCompleted(digest: Digest, options: BuildOptions, drafts: seq<PlannedChunk>, planned: seq<PlannedChunk>, count: nat) {
    |planned| == |drafts| && forall k | 0 <= k < count && k < |drafts| :: planned[k] == CompletedAt(digest, options, drafts, k)
  }

  lemma CompletedOneMore(digest: Digest, options: BuildOptions, drafts: seq<PlannedChunk>, planned: seq<PlannedChunk>, index: nat)
    requires index < |drafts| && AreCompleted(digest, options, drafts, planned, index)
    ensures AreCompleted(digest, options, drafts, planned[index := CompletedAt(digest, options, drafts, index)], index + 1)
  {
  }

  /** Fill in context, hash and file name, chunk by chunk; chunks already filled in keep their text and chapter. */
  method CompleteInPlace(digest: Digest, drafts: seq<PlannedChunk>, options: BuildOptions) returns (planned: seq<PlannedChunk>)
    ensures planned == CompletedAll(digest, options, None, drafts)
  {
    planned := drafts;
    for index := 0 to |drafts|
      invariant SameTexts(planned, drafts)
      invariant forall k | index <= k < |drafts| :: planned[k] == drafts[k]
      invariant AreCompleted(digest, options, drafts, planned, index)
    {
      var complete := CompleteOne(digest, drafts, planned, index, options);
      CompletedOneMore(digest, options, drafts, planned, index);
      planned := planned[index := complete];
    }
    CompletedEverywhere(digest, options, drafts, planned);
  }

  lemma CompletedEverywhere(digest: Digest, options: BuildOptions, drafts: seq<PlannedChunk>, planned: seq<PlannedChunk>)
    requires AreCompleted(digest, options, drafts, planned, |drafts|)
    ensures planned == CompletedAll(digest, options, None, drafts)
  {
    CompletedAllIsPointwise(digest, options, None, drafts);
  }

  function At(drafts: seq<PlannedChunk>, k: int): Option<PlannedChunk> {
    if 0 <= k < |drafts| then Some(drafts[k]) else None
  }

  function CompletedAt(digest: Digest, options: BuildOptions, drafts: seq<PlannedChunk>, k: nat): PlannedChunk
    requires k < |drafts|
  {
    Completed(digest, options, drafts[k], At(drafts, k - 1), At(drafts, k + 1))
  }

  lemma {:induction false} CompletedAllIsPointwise(digest: Digest, options: BuildOptions, previous: Option<PlannedChunk>, drafts: seq<PlannedChunk>)
    ensures forall k | 0 <= k < |drafts| ::
      CompletedAll(digest, options, previous, drafts)[k]
        == Completed(digest, options, drafts[k], if k == 0 then previous else Some(drafts[k - 1]), At(drafts, k + 1))
    decreases |drafts|
  {
    if drafts != [] {
      CompletedAllIsPointwise(digest, options, Some(drafts[0]), drafts[1..]);
      var all := CompletedAll(digest, options, previous, drafts);
      forall k | 0 <= k < |drafts|
        ensures all[k] == Completed(digest, options, drafts[k], if k == 0 then previous else Some(drafts[k - 1]), At(drafts, k + 1))
      {
        if k > 0 {
          assert all[k] == CompletedAll(digest, options, Some(drafts[0]), drafts[1..])[k - 1];
          assert At(drafts[1..], k) == At(drafts, k + 1);
        }
      }
    }
  }
}
