/** Exactly which body chunks, and which chapters, keep their cache identities under every heading break tag
    (crates/bookforge-audio/src/builder.rs:312-386, 1027-1066). */
module TagStability {
  import opened Options
  import opened Strings
  import opened Sentences
  import opened FirstPieces
  import opened Chunking
  import opened Planning
  import opened PlanProperties
  import opened BreakTags
  import opened TagContext

  /** Validation accepts the options with this tag. */
  predicate Accepted(options: BuildOptions, tag: Option<string>) {
    HasRoom(Retagged(options, tag))
  }

  function Suffix(options: BuildOptions): string {
    if options.headingBreakTag.None? || options.headingBreakTag.value == "" then "" else " " + options.headingBreakTag.value
  }

  // ----- requests of the neighbours -----

  lemma BodyRequests(script: Script, options: BuildOptions, segment: Segment)
    requires segment.Body?
    ensures FirstRequest(script, options, segment) == LastRequest(script, options, segment) == segment.text
  {
  }

  ghost predicate IsHead(segment: Segment) {
    segment.Head? && IsHeadText(segment.text) && !segment.kind.BodyChunk?
  }

  lemma HeadRequests(script: Script, options: BuildOptions, segment: Segment)
    requires IsHead(segment)
    ensures var texts := HeadTexts(script, segment.text, AtLeastOne(HeadingMaxChars(options)));
      && texts != [] && FirstRequest(script, options, segment) == texts[0] + Suffix(options)
      && LastRequest(script, options, segment) == texts[|texts| - 1] + Suffix(options)
      && LastRequest(script, options, segment) != ""
  {
    var texts := HeadTexts(script, segment.text, AtLeastOne(HeadingMaxChars(options)));
    HeadTextsFit(script, segment.text, AtLeastOne(HeadingMaxChars(options)));
    WithSuffix(texts[0], segment.kind, options);
    WithSuffix(texts[|texts| - 1], segment.kind, options);
  }

  lemma WithSuffix(text: string, kind: ChunkKind, options: BuildOptions)
    requires !kind.BodyChunk?
    ensures RequestText(Chunk(kind, text), options) == text + Suffix(options)
  {
    if Suffix(options) == "" {
      assert text + "" == text;
    } else {
      assert text + " " + options.headingBreakTag.value == text + Suffix(options);
    }
  }

  // ----- a body chunk among body chunks -----

  ghost predicate SameContexts(script: Script, options: BuildOptions, other: BuildOptions, segments: seq<Segment>, k: nat)
    requires k < |segments|
  {
    && Before(script, options, segments, k) == Before(script, other, segments, k)
    && After(script, options, segments, k) == After(script, other, segments, k)
  }

  /** A body chunk's cache identity changes only through its context. */
  lemma KeyIff(script: Script, digest: Digest, options: BuildOptions, tag: Option<string>, segments: seq<Segment>, k: nat)
    requires Injective(digest) && k < |segments|
    ensures KeyAt(script, digest, options, segments, k) == KeyAt(script, digest, Retagged(options, tag), segments, k)
       <==> SameContexts(script, options, Retagged(options, tag), segments, k)
  {
    var other := Retagged(options, tag);
    HashIff(digest, options, other, segments[k].text, BodyChunk, Before(script, options, segments, k), After(script, options, segments, k),
            Before(script, other, segments, k), After(script, other, segments, k));
  }

  predicate FreeBefore(segments: seq<Segment>, k: nat)
    requires k < |segments|
  {
    k == 0 || segments[k - 1].Body?
  }

  predicate FreeAfter(segments: seq<Segment>, k: nat)
    requires k < |segments|
  {
    k + 1 == |segments| || segments[k + 1].Body?
  }

  lemma BodiesLendTheSame(script: Script, options: BuildOptions, tag: Option<string>, segments: seq<Segment>, k: nat)
    requires k < |segments|
    ensures FreeBefore(segments, k) ==> Before(script, options, segments, k) == Before(script, Retagged(options, tag), segments, k)
    ensures FreeAfter(segments, k) ==> After(script, options, segments, k) == After(script, Retagged(options, tag), segments, k)
  {
    if k > 0 && segments[k - 1].Body? {
      BodyRequests(script, options, segments[k - 1]);
      BodyRequests(script, Retagged(options, tag), segments[k - 1]);
    }
    if k + 1 < |segments| && segments[k + 1].Body? {
      BodyRequests(script, options, segments[k + 1]);
      BodyRequests(script, Retagged(options, tag), segments[k + 1]);
    }
  }

  /** A body chunk whose neighbours are body chunks or the ends of the chapter keeps its cache identity under every tag. */
  lemma AmongBodies(script: Script, digest: Digest, options: BuildOptions, tag: Option<string>, segments: seq<Segment>, k: nat)
    requires k < |segments| && FreeBefore(segments, k) && FreeAfter(segments, k)
    ensures KeyAt(script, digest, options, segments, k) == KeyAt(script, digest, Retagged(options, tag), segments, k)
  {
    BodiesLendTheSame(script, options, tag, segments, k);
  }

  // ----- a body chunk behind a title or heading -----

  lemma SliceEnds(text: string, chars: nat)
    requires text != "" && chars > 0
    ensures var slice := ContextSlice(text, chars, true);
      slice.Some? && slice.value != "" && slice.value[|slice.value| - 1] == text[|text| - 1]
  {
  }

  lemma OtherSlice(mine: string, theirs: string, chars: nat)
    requires mine != "" && theirs != "" && mine[|mine| - 1] != theirs[|theirs| - 1] && chars > 0
    ensures ContextSlice(mine, chars, true) != ContextSlice(theirs, chars, true)
  {
    SliceEnds(mine, chars);
    SliceEnds(theirs, chars);
  }

  /** Requests that end differently change the identity of the body chunk behind them. */
  lemma OtherEnd(script: Script, digest: Digest, options: BuildOptions, tag: Option<string>, segments: seq<Segment>, k: nat,
                 mine: string, theirs: string)
    requires Injective(digest) && 0 < k < |segments| && options.contextChars > 0
    requires mine == LastRequest(script, options, segments[k - 1]) && theirs == LastRequest(script, Retagged(options, tag), segments[k - 1])
    requires mine != "" && theirs != "" && mine[|mine| - 1] != theirs[|theirs| - 1]
    ensures KeyAt(script, digest, options, segments, k) != KeyAt(script, digest, Retagged(options, tag), segments, k)
  {
    OtherSlice(mine, theirs, options.contextChars);
    assert Before(script, options, segments, k) != Before(script, Retagged(options, tag), segments, k);
    KeyIff(script, digest, options, tag, segments, k);
  }

  /** With context and room for a tag of one character, a body chunk directly behind a title or heading changes its cache
      identity under some accepted tag: any whose last character is not the one its context ends with. */
  lemma BehindHead(script: Script, digest: Digest, options: BuildOptions, segments: seq<Segment>, k: nat)
    requires Injective(digest) && 0 < k < |segments| && IsHead(segments[k - 1])
    requires options.contextChars > 0 && options.maxChars >= 3
    ensures exists tag | Accepted(options, tag) ::
      KeyAt(script, digest, options, segments, k) != KeyAt(script, digest, Retagged(options, tag), segments, k)
  {
    HeadRequests(script, options, segments[k - 1]);
    var mine := LastRequest(script, options, segments[k - 1]);
    var ch := if mine[|mine| - 1] == 'a' then 'b' else 'a';
    var tag := Some([ch]);
    HeadRequests(script, Retagged(options, tag), segments[k - 1]);
    assert Suffix(Retagged(options, tag)) == " " + [ch];
    OtherEnd(script, digest, options, tag, segments, k, mine, LastRequest(script, Retagged(options, tag), segments[k - 1]));
    assert Accepted(options, tag);
  }

  // ----- a body chunk before a title or heading -----

  /** The first characters of the head's first request are the same under every accepted tag. */
  predicate HeadLendsTheSame(script: Script, options: BuildOptions, text: string)
    requires options.maxChars >= 1
  {
    || options.contextChars == 1
    || (options.contextChars == 2 && HeadTexts(script, text, options.maxChars) != []
        && SecondIsSpace(HeadTexts(script, text, options.maxChars)[0]))
  }

  lemma LimitOf(options: BuildOptions)
    requires HasRoom(options)
    ensures 1 <= AtLeastOne(HeadingMaxChars(options)) == HeadingMaxChars(options) == options.maxChars - |Suffix(options)| <= options.maxChars
  {
  }

  lemma OneCharacter(script: Script, options: BuildOptions, head: Segment)
    requires HasRoom(options) && IsHead(head) && options.contextChars == 1
    ensures ContextSlice(FirstRequest(script, options, head), 1, false) == Some([head.text[0]])
  {
    LimitOf(options);
    HeadRequests(script, options, head);
    FirstCharacter(script, head.text, HeadingMaxChars(options));
    var request := FirstRequest(script, options, head);
    assert request[..1] == [head.text[0]];
  }

  lemma TwoCharacters(script: Script, options: BuildOptions, head: Segment)
    requires HasRoom(options) && IsHead(head) && options.contextChars == 2 && HeadLendsTheSame(script, options, head.text)
    ensures ContextSlice(FirstRequest(script, options, head), 2, false) == Some([head.text[0], ' '])
  {
    var limit := HeadingMaxChars(options);
    LimitOf(options);
    HeadRequests(script, options, head);
    FirstCharacter(script, head.text, limit);
    SpaceStaysSecond(script, head.text, options.maxChars, limit);
    var piece, request := HeadTexts(script, head.text, limit)[0], FirstRequest(script, options, head);
    assert request[..2] == [head.text[0], ' '];
  }

  /** A tag that leaves one character for a heading. */
  function Widest(options: BuildOptions, ch: char): string
    requires options.maxChars >= 3
  {
    seq(options.maxChars - 2, _ => ch)
  }

  lemma WidestRequest(script: Script, options: BuildOptions, ch: char, head: Segment)
    requires options.maxChars >= 3 && IsHead(head)
    ensures Accepted(options, Some(Widest(options, ch)))
    ensures var request := FirstRequest(script, Retagged(options, Some(Widest(options, ch))), head);
      |request| >= 3 && request[..2] == [head.text[0], ' '] && request[2] == ch
  {
    var tag := Widest(options, ch);
    var widest := Retagged(options, Some(tag));
    LimitOf(widest);
    HeadRequests(script, widest, head);
    HeadTextsFit(script, head.text, 1);
    FirstCharacter(script, head.text, 1);
    assert Suffix(widest) == " " + tag && tag[0] == ch;
  }

  lemma ThreeCharacters(script: Script, options: BuildOptions, head: Segment)
    requires options.maxChars >= 3 && options.contextChars >= 3 && IsHead(head)
    ensures ContextSlice(FirstRequest(script, Retagged(options, Some(Widest(options, 'a'))), head), options.contextChars, false)
         != ContextSlice(FirstRequest(script, Retagged(options, Some(Widest(options, 'b'))), head), options.contextChars, false)
  {
    WidestRequest(script, options, 'a', head);
    WidestRequest(script, options, 'b', head);
    ThirdDiffers(FirstRequest(script, Retagged(options, Some(Widest(options, 'a'))), head),
                 FirstRequest(script, Retagged(options, Some(Widest(options, 'b'))), head), options.contextChars);
  }

  lemma ThirdDiffers(a: string, b: string, chars: nat)
    requires |a| >= 3 && |b| >= 3 && a[2] != b[2] && chars >= 3
    ensures ContextSlice(a, chars, false) != ContextSlice(b, chars, false)
  {
    var x, y := ContextSlice(a, chars, false).value, ContextSlice(b, chars, false).value;
    assert x[2] == a[2] && y[2] == b[2];
  }

  lemma UntaggedDiffers(script: Script, options: BuildOptions, head: Segment)
    requires options.maxChars >= 3 && options.contextChars == 2 && IsHead(head) && !HeadLendsTheSame(script, options, head.text)
    ensures Accepted(options, None)
    ensures ContextSlice(FirstRequest(script, Retagged(options, None), head), 2, false)
         != ContextSlice(FirstRequest(script, Retagged(options, Some(Widest(options, 'a'))), head), 2, false)
  {
    var untagged := Retagged(options, None);
    LimitOf(untagged);
    HeadRequests(script, untagged, head);
    HeadTextsFit(script, head.text, options.maxChars);
    var piece := HeadTexts(script, head.text, options.maxChars)[0];
    assert FirstRequest(script, untagged, head) == piece + "" == piece;
    WidestRequest(script, options, 'a', head);
    SecondDiffers(piece, FirstRequest(script, Retagged(options, Some(Widest(options, 'a'))), head));
  }

  lemma SecondDiffers(piece: string, request: string)
    requires piece != "" && !SecondIsSpace(piece) && |request| >= 3 && request[1] == ' '
    ensures ContextSlice(piece, 2, false) != ContextSlice(request, 2, false)
  {
    var x, y := ContextSlice(piece, 2, false).value, ContextSlice(request, 2, false).value;
    assert y[1] == ' ' && |y| == 2;
    assert |piece| >= 2 ==> x[1] == piece[1];
  }

  ghost predicate KeptAfter(script: Script, options: BuildOptions, segments: seq<Segment>, k: nat)
    requires k < |segments|
  {
    forall tag | Accepted(options, tag) :: After(script, options, segments, k) == After(script, Retagged(options, tag), segments, k)
  }

  /** What a title or heading lends the body chunk before it is the same under every accepted tag if and only if that is one
      character, or two and the untagged heading has a space in second place. */
  lemma BeforeHeadIff(script: Script, options: BuildOptions, segments: seq<Segment>, k: nat)
    requires HasRoom(options) && k + 1 < |segments| && IsHead(segments[k + 1])
    requires options.contextChars > 0 && options.maxChars >= 3
    ensures KeptAfter(script, options, segments, k) <==> HeadLendsTheSame(script, options, segments[k + 1].text)
  {
    var head := segments[k + 1];
    if HeadLendsTheSame(script, options, head.text) {
      forall tag | Accepted(options, tag)
        ensures After(script, options, segments, k) == After(script, Retagged(options, tag), segments, k)
      {
        LendsTheSame(script, options, Retagged(options, tag), head);
      }
    } else if KeptAfter(script, options, segments, k) {
      WidestRequest(script, options, 'a', head);
      WidestRequest(script, options, 'b', head);
      assert After(script, options, segments, k) == After(script, Retagged(options, Some(Widest(options, 'a'))), segments, k);
      assert After(script, options, segments, k) == After(script, Retagged(options, Some(Widest(options, 'b'))), segments, k);
      if options.contextChars == 2 {
        UntaggedDiffers(script, options, head);
      } else {
        ThreeCharacters(script, options, head);
      }
    }
  }

  lemma LendsTheSame(script: Script, options: BuildOptions, other: BuildOptions, head: Segment)
    requires HasRoom(options) && HasRoom(other) && other == Retagged(options, other.headingBreakTag)
    requires IsHead(head) && HeadLendsTheSame(script, options, head.text)
    ensures ContextSlice(FirstRequest(script, options, head), options.contextChars, false)
         == ContextSlice(FirstRequest(script, other, head), options.contextChars, false)
  {
    if options.contextChars == 1 {
      OneCharacter(script, options, head);
      OneCharacter(script, other, head);
    } else {
      TwoCharacters(script, options, head);
      TwoCharacters(script, other, head);
    }
  }

  // ----- the exact condition -----

  /** No accepted tag can reach the body chunk at segment `k`. */
  predicate Undisturbed(script: Script, options: BuildOptions, segments: seq<Segment>, k: nat)
    requires k < |segments|
  {
    || options.maxChars < 3 || options.contextChars == 0
    || (FreeBefore(segments, k) && (FreeAfter(segments, k) || HeadLendsTheSame(script, options, segments[k + 1].text)))
  }

  ghost predicate KeptAt(script: Script, digest: Digest, options: BuildOptions, segments: seq<Segment>, k: nat)
    requires k < |segments|
  {
    forall tag | Accepted(options, tag) ::
      KeyAt(script, digest, options, segments, k) == KeyAt(script, digest, Retagged(options, tag), segments, k)
  }

  /** With room for no tag at all, accepted options make the same requests. */
  lemma NoRoomForTags(script: Script, options: BuildOptions, tag: Option<string>, segments: seq<Segment>, k: nat)
    requires HasRoom(options) && Accepted(options, tag) && options.maxChars < 3 && WellFormed(segments) && k < |segments|
    ensures SameContexts(script, options, Retagged(options, tag), segments, k)
  {
    var other := Retagged(options, tag);
    assert Suffix(options) == "" == Suffix(other);
    forall j | 0 <= j < |segments|
      ensures FirstRequest(script, options, segments[j]) == FirstRequest(script, other, segments[j])
      ensures LastRequest(script, options, segments[j]) == LastRequest(script, other, segments[j])
    {
      if segments[j].Head? {
        HeadRequests(script, options, segments[j]);
        HeadRequests(script, other, segments[j]);
      }
    }
  }

  lemma UndisturbedIsKept(script: Script, digest: Digest, options: BuildOptions, tag: Option<string>, segments: seq<Segment>, k: nat)
    requires HasRoom(options) && Accepted(options, tag) && WellFormed(segments) && k < |segments| && Undisturbed(script, options, segments, k)
    ensures KeyAt(script, digest, options, segments, k) == KeyAt(script, digest, Retagged(options, tag), segments, k)
  {
    if options.maxChars < 3 {
      NoRoomForTags(script, options, tag, segments, k);
    } else if options.contextChars > 0 {
      BodiesLendTheSame(script, options, tag, segments, k);
      if !FreeAfter(segments, k) {
        LendsTheSame(script, options, Retagged(options, tag), segments[k + 1]);
      }
    }
  }

  /** A body chunk keeps its cache identity under every accepted break tag if and only if there is no room for one, there is no
      context, or it follows no title or heading and what one behind it lends is the same for all. */
  lemma BodyChunkKeptIff(script: Script, digest: Digest, options: BuildOptions, segments: seq<Segment>, k: nat)
    requires HasRoom(options) && Injective(digest) && WellFormed(segments) && k < |segments| && segments[k].Body?
    ensures KeptAt(script, digest, options, segments, k) <==> Undisturbed(script, options, segments, k)
  {
    if Undisturbed(script, options, segments, k) {
      forall tag | Accepted(options, tag)
        ensures KeyAt(script, digest, options, segments, k) == KeyAt(script, digest, Retagged(options, tag), segments, k)
      {
        UndisturbedIsKept(script, digest, options, tag, segments, k);
      }
    } else if !FreeBefore(segments, k) {
      BehindHead(script, digest, options, segments, k);
    } else {
      BeforeHeadIff(script, options, segments, k);
      var tag :| Accepted(options, tag) && After(script, options, segments, k) != After(script, Retagged(options, tag), segments, k);
      KeyIff(script, digest, options, tag, segments, k);
    }
  }

  lemma {:induction false} SameBodyKeys(mine: seq<string>, theirs: seq<string>, segments: seq<Segment>, k: nat)
    requires |mine| == |theirs| == |segments| && k <= |segments|
    ensures BodyKeys(mine, segments, k) == BodyKeys(theirs, segments, k)
       <==> forall j | k <= j < |segments| && segments[j].Body? :: mine[j] == theirs[j]
    decreases |segments| - k
  {
    if k < |segments| {
      SameBodyKeys(mine, theirs, segments, k + 1);
      if segments[k].Body? {
        var restM, restT := BodyKeys(mine, segments, k + 1), BodyKeys(theirs, segments, k + 1);
        assert ([mine[k]] + restM)[0] == mine[k] && ([theirs[k]] + restT)[0] == theirs[k];
        assert ([mine[k]] + restM)[1..] == restM && ([theirs[k]] + restT)[1..] == restT;
      }
    }
  }

  ghost predicate SameKeys(script: Script, digest: Digest, chapter: Chapter, options: BuildOptions, other: BuildOptions) {
    CacheKeys(ChapterPlan(script, digest, chapter, options)) == CacheKeys(ChapterPlan(script, digest, chapter, other))
  }

  /** All body chunks of the chapter keep their cache identities under every accepted tag. */
  ghost predicate ChapterKept(script: Script, digest: Digest, chapter: Chapter, options: BuildOptions) {
    forall tag | Accepted(options, tag) :: SameKeys(script, digest, chapter, options, Retagged(options, tag))
  }

  lemma ChapterKeysIff(script: Script, digest: Digest, chapter: Chapter, options: BuildOptions, tag: Option<string>)
    ensures SameKeys(script, digest, chapter, options, Retagged(options, tag)) <==>
      var segments := SegmentsOf(script, chapter, options);
      forall k | 0 <= k < |segments| && segments[k].Body? ::
        KeyAt(script, digest, options, segments, k) == KeyAt(script, digest, Retagged(options, tag), segments, k)
  {
    var segments, other := SegmentsOf(script, chapter, options), Retagged(options, tag);
    KeysOfPlan(script, digest, chapter, options);
    KeysOfPlan(script, digest, chapter, other);
    assert SegmentsOf(script, chapter, other) == segments;
    SameBodyKeys(KeysOf(script, digest, options, segments), KeysOf(script, digest, other, segments), segments, 0);
  }

  /** A chapter's body chunks all keep their cache identities under every accepted break tag if and only if none of them is
      within reach of one. */
  lemma ChapterKeptIff(script: Script, digest: Digest, chapter: Chapter, options: BuildOptions)
    requires HasRoom(options) && Injective(digest)
    ensures ChapterKept(script, digest, chapter, options) <==>
      var segments := SegmentsOf(script, chapter, options);
      forall k | 0 <= k < |segments| && segments[k].Body? :: Undisturbed(script, options, segments, k)
  {
    var segments := SegmentsOf(script, chapter, options);
    KeysOfPlan(script, digest, chapter, options);
    forall tag {
      ChapterKeysIff(script, digest, chapter, options, tag);
    }
    forall k | 0 <= k < |segments| && segments[k].Body?
      ensures KeptAt(script, digest, options, segments, k) <==> Undisturbed(script, options, segments, k)
    {
      BodyChunkKeptIff(script, digest, options, segments, k);
    }
    assert ChapterKept(script, digest, chapter, options)
      <==> forall k | 0 <= k < |segments| && segments[k].Body? :: KeptAt(script, digest, options, segments, k);
  }

  // ----- whole records -----

  /** How many chunks come before segment `k`. */
  function ChunksBefore(script: Script, options: BuildOptions, segments: seq<Segment>, k: nat): nat
    requires k <= |segments|
  {
    if k == 0 then 0
    else ChunksBefore(script, options, segments, k - 1) + |Expanded(script, HeadingMaxChars(options), segments[k - 1])|
  }

  lemma {:induction false} StartsAre(script: Script, options: BuildOptions, segments: seq<Segment>, chunks: seq<Chunk>,
                                     starts: seq<nat>, k: nat)
    requires k <= |segments| && LaidOut(PartsOf(script, HeadingMaxChars(options), segments), chunks, starts)
    ensures starts[k] == ChunksBefore(script, options, segments, k)
  {
    if k > 0 {
      StartsAre(script, options, segments, chunks, starts, k - 1);
      assert PartAt(PartsOf(script, HeadingMaxChars(options), segments), chunks, starts, k - 1);
    }
  }

  /** The body chunk at segment `k`, where it stands among the chapter's chunks and what its neighbours lend it there. */
  lemma BodyChunkAt(script: Script, chapter: Chapter, options: BuildOptions, k: nat)
    requires k < |SegmentsOf(script, chapter, options)| && SegmentsOf(script, chapter, options)[k].Body?
    ensures var segments, chunks := SegmentsOf(script, chapter, options), ChapterChunks(script, chapter, options);
      var a := ChunksBefore(script, options, segments, k);
      && a < |chunks| && chunks[a] == Chunk(BodyChunk, segments[k].text)
      && LentBefore(chunks, options, a) == Before(script, options, segments, k)
      && LentAfter(chunks, options, a) == After(script, options, segments, k)
  {
    var segments, chunks := SegmentsOf(script, chapter, options), ChapterChunks(script, chapter, options);
    ChunksAreExpanded(script, chapter.blocks, options.maxChars, HeadingMaxChars(options), []);
    PartsAreChunks(script, HeadingMaxChars(options), segments);
    var starts := LayOut(PartsOf(script, HeadingMaxChars(options), segments));
    StartsAre(script, options, segments, chunks, starts, k);
    BodyAt(script, HeadingMaxChars(options), segments, chunks, starts, k);
    LentBeforeAt(script, options, segments, chunks, starts, k);
    LentAfterAt(script, options, segments, chunks, starts, k);
  }

  /** A body chunk's whole record, file name included, is the same under another tag if and only if its cache identity is and
      the titles and headings before it are cut into as many chunks. */
  lemma RecordKeptIff(script: Script, digest: Digest, chapter: Chapter, options: BuildOptions, tag: Option<string>, k: nat)
    requires Injective(digest) && k < |SegmentsOf(script, chapter, options)| && SegmentsOf(script, chapter, options)[k].Body?
    ensures var segments, other := SegmentsOf(script, chapter, options), Retagged(options, tag);
      var a, b := ChunksBefore(script, options, segments, k), ChunksBefore(script, other, segments, k);
      && a < |ChapterPlan(script, digest, chapter, options)| && b < |ChapterPlan(script, digest, chapter, other)|
      && (ChapterPlan(script, digest, chapter, options)[a] == ChapterPlan(script, digest, chapter, other)[b]
          <==> a == b && KeyAt(script, digest, options, segments, k) == KeyAt(script, digest, other, segments, k))
  {
    var segments, other := SegmentsOf(script, chapter, options), Retagged(options, tag);
    assert SegmentsOf(script, chapter, other) == segments;
    BodyChunkAt(script, chapter, options, k);
    BodyChunkAt(script, chapter, other, k);
    BodyRecordIff(script, digest, chapter, options, tag,
                  ChunksBefore(script, options, segments, k), ChunksBefore(script, other, segments, k));
    KeyIff(script, digest, options, tag, segments, k);
  }

  // ----- which chapters are within reach -----

  lemma {:induction false} BeginsWithBody(script: Script, blocks: seq<Block>, maxChars: nat, paragraphs: seq<string>)
    requires NonBlank(Flatten(paragraphs)) != ""
    ensures Segments(script, blocks, maxChars, paragraphs) != [] && Segments(script, blocks, maxChars, paragraphs)[0].Body?
    decreases blocks
  {
    if blocks != [] && blocks[0].kind.Paragraph? {
      OneMoreParagraph(paragraphs, blocks[0].text);
      BeginsWithBody(script, blocks[1..], maxChars, paragraphs + [blocks[0].text]);
    } else {
      var text := JoinWith(paragraphs, "\n\n");
      JoinNonBlank(paragraphs, "\n\n");
      BodyChunksSplitWell(script, text, maxChars);
      assert BodyChunks(script, text, maxChars) != [];
      assert FlushSegments(script, paragraphs, maxChars)[0].Body?;
    }
  }

  /** The block at `i` is a title or heading with text, and the next one a paragraph with text. */
  predicate HeadsText(blocks: seq<Block>, i: nat) {
    && i + 1 < |blocks| && !blocks[i].kind.Paragraph? && Trim(blocks[i].text) != ""
    && blocks[i + 1].kind.Paragraph? && Trim(blocks[i + 1].text) != ""
  }

  lemma {:induction false} BodyFollowsHead(script: Script, blocks: seq<Block>, maxChars: nat, paragraphs: seq<string>, i: nat)
    returns (k: nat)
    requires HeadsText(blocks, i)
    ensures var segments := Segments(script, blocks, maxChars, paragraphs);
      0 < k < |segments| && segments[k - 1].Head? && segments[k].Body?
    decreases blocks
  {
    var rest := blocks[1..];
    if blocks[0].kind.Paragraph? {
      k := BodyFollowsHead(script, rest, maxChars, paragraphs + [blocks[0].text], i - 1);
    } else {
      var front := FlushSegments(script, paragraphs, maxChars) + HeadSegment(blocks[0]);
      if i == 0 {
        ParagraphBeginsWithBody(script, rest, maxChars);
        k := |front|;
      } else {
        k := BodyFollowsHead(script, rest, maxChars, [], i - 1);
        k := |front| + k;
      }
    }
  }

  lemma ParagraphBeginsWithBody(script: Script, blocks: seq<Block>, maxChars: nat)
    requires blocks != [] && blocks[0].kind.Paragraph? && Trim(blocks[0].text) != ""
    ensures Segments(script, blocks, maxChars, []) != [] && Segments(script, blocks, maxChars, [])[0].Body?
  {
    var text := blocks[0].text;
    TrimNonBlank(text);
    FlattenOne(text);
    assert [] + [text] == [text];
    if NonBlank(text) == "" {
      BlankIfNoNonBlank(text);
    }
    BeginsWithBody(script, blocks[1..], maxChars, [text]);
  }

  /** With context and room for a tag, no chapter in which a paragraph with text follows a title or heading keeps all its
      cache identities. */
  lemma HeadedTextIsNotKept(script: Script, digest: Digest, chapter: Chapter, options: BuildOptions, i: nat)
    requires HasRoom(options) && Injective(digest) && options.contextChars > 0 && options.maxChars >= 3
    requires HeadsText(chapter.blocks, i)
    ensures !ChapterKept(script, digest, chapter, options)
  {
    var k := BodyFollowsHead(script, chapter.blocks, options.maxChars, [], i);
    ChapterKeptIff(script, digest, chapter, options);
    assert !Undisturbed(script, options, SegmentsOf(script, chapter, options), k);
  }

  lemma TaggedEnds(script: Script, options: BuildOptions, head: Segment)
    requires head == Head(HeadingChunk, "H")
    ensures LastRequest(script, Retagged(options, None), head) == "H"
    ensures var tagged := LastRequest(script, Retagged(options, Some("<b>")), head);
      tagged != "" && tagged[|tagged| - 1] == '>'
  {
    var untagged, tagged := Retagged(options, None), Retagged(options, Some("<b>"));
    HeadRequests(script, untagged, head);
    HeadRequests(script, tagged, head);
    assert HeadTexts(script, "H", AtLeastOne(HeadingMaxChars(untagged))) == ["H"] && "H" + "" == "H";
    assert Suffix(tagged)[|Suffix(tagged)| - 1] == '>';
  }

  /** The tag "<b>" on the heading "H" changes the cache identity of the paragraph behind it. */
  lemma TagChangesContext(script: Script, digest: Digest, options: BuildOptions)
    requires Injective(digest) && options.contextChars > 0
    ensures !SameKeys(script, digest, HeadAndBody("H"), Retagged(options, None), Retagged(options, Some("<b>")))
  {
    var untagged, tag := Retagged(options, None), Some("<b>");
    assert Trim("H") == "H" && Retagged(untagged, tag) == Retagged(options, tag);
    HeadAndBodySegments(script, "H", options.maxChars);
    var segments := SegmentsOf(script, HeadAndBody("H"), untagged);
    TaggedEnds(script, options, segments[0]);
    OtherEnd(script, digest, untagged, tag, segments, 1, "H", LastRequest(script, Retagged(untagged, tag), segments[0]));
    ChapterKeysIff(script, digest, HeadAndBody("H"), untagged, tag);
  }

  lemma HeadAndBodySegments(script: Script, heading: string, maxChars: nat)
    requires Trim(heading) == heading != ""
    ensures Segments(script, HeadAndBody(heading).blocks, maxChars, []) == [Head(HeadingChunk, heading), Body("x")]
  {
    var blocks := HeadAndBody(heading).blocks;
    OneLetterBody(script, maxChars);
    assert blocks[1..] == [Block(Paragraph, "x")] && blocks[1..][1..] == [];
    assert [] + ["x"] == ["x"];
    assert BodyChunks(script, JoinWith(["x"], "\n\n"), maxChars) == ["x"];
    assert Segments(script, [], maxChars, ["x"]) == [Body("x")];
  }
}
