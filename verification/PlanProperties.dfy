/** What the plan guarantees: chapters are planned on their own, a filter only selects, files are distinct and requests
    fit (crates/bookforge-audio/src/builder.rs:306-386, 1018-1056). */
module PlanProperties {
  import opened Options
  import opened Strings
  import opened Sentences
  import opened Chunking
  import opened Numbers
  import opened Planning

  // ----- chapter by chapter -----

  ghost predicate DistinctIndices(chapters: seq<Chapter>) {
    forall i, j | 0 <= i < j < |chapters| :: chapters[i].index != chapters[j].index
  }

  /** The plan of one chapter on its own. */
  function ChapterPlan(script: Script, digest: Digest, chapter: Chapter, options: BuildOptions): seq<PlannedChunk> {
    CompletedAll(digest, options, None, ChapterDrafts(script, chapter, options))
  }

  function SelectedPlan(script: Script, digest: Digest, chapter: Chapter, options: BuildOptions): seq<PlannedChunk> {
    if Selected(chapter, options) then ChapterPlan(script, digest, chapter, options) else []
  }

  function PlanByChapter(script: Script, digest: Digest, chapters: seq<Chapter>, options: BuildOptions): seq<PlannedChunk> {
    if chapters == [] then []
    else SelectedPlan(script, digest, chapters[0], options) + PlanByChapter(script, digest, chapters[1..], options)
  }

  lemma {:induction false} CompletedConcat(digest: Digest, options: BuildOptions, previous: Option<PlannedChunk>,
                                           a: seq<PlannedChunk>, b: seq<PlannedChunk>)
    requires a != []
    requires b != [] ==> a[|a| - 1].chapterIndex != b[0].chapterIndex
    ensures CompletedAll(digest, options, previous, a + b)
         == CompletedAll(digest, options, previous, a) + CompletedAll(digest, options, None, b)
    decreases |a|
  {
    assert (a + b)[0] == a[0] && (a + b)[1..] == a[1..] + b;
    if |a| == 1 {
      assert a == [a[0]] && a[1..] + b == b;
      LastBeforeBoundary(digest, options, previous, a[0], b);
    } else {
      CompletedConcat(digest, options, Some(a[0]), a[1..], b);
      var first := Completed(digest, options, a[0], previous, Some(a[1]));
      Regroup([first], CompletedAll(digest, options, Some(a[0]), a[1..]), CompletedAll(digest, options, None, b));
    }
  }

  lemma LastBeforeBoundary(digest: Digest, options: BuildOptions, previous: Option<PlannedChunk>, last: PlannedChunk, b: seq<PlannedChunk>)
    requires b != [] ==> last.chapterIndex != b[0].chapterIndex
    ensures CompletedAll(digest, options, previous, [last] + b)
         == CompletedAll(digest, options, previous, [last]) + CompletedAll(digest, options, None, b)
  {
    var head := LastCompleted(digest, options, previous, last, b);
  }

  /** The chunk before a boundary comes out the same whatever follows. */
  lemma LastCompleted(digest: Digest, options: BuildOptions, previous: Option<PlannedChunk>, last: PlannedChunk, b: seq<PlannedChunk>)
    returns (head: PlannedChunk)
    requires b != [] ==> last.chapterIndex != b[0].chapterIndex
    ensures CompletedAll(digest, options, previous, [last] + b) == [head] + CompletedAll(digest, options, None, b)
    ensures CompletedAll(digest, options, previous, [last]) == [head]
  {
    head := Completed(digest, options, last, previous, None);
    CompletedCons(digest, options, previous, last, b, head);
    CompletedCons(digest, options, previous, last, [], head);
    assert [last] + [] == [last] && [head] + [] == [head];
  }

  lemma CompletedCons(digest: Digest, options: BuildOptions, previous: Option<PlannedChunk>, first: PlannedChunk, rest: seq<PlannedChunk>,
                      head: PlannedChunk)
    requires head == Completed(digest, options, first, previous, First(rest))
    ensures CompletedAll(digest, options, previous, [first] + rest) == [head] + CompletedAll(digest, options, Some(first), rest)
  {
    assert ([first] + rest)[1..] == rest;
  }

  ghost predicate HasIndex(chapters: seq<Chapter>, index: nat) {
    exists c :: 0 <= c < |chapters| && chapters[c].index == index
  }

  ghost predicate IsOfChapters(plan: seq<PlannedChunk>, chapters: seq<Chapter>) {
    forall k | 0 <= k < |plan| :: HasIndex(chapters, plan[k].chapterIndex)
  }

  ghost predicate IsOfChapter(plan: seq<PlannedChunk>, index: nat) {
    forall k | 0 <= k < |plan| :: plan[k].chapterIndex == index
  }

  lemma OfChaptersConcat(head: seq<PlannedChunk>, rest: seq<PlannedChunk>, chapters: seq<Chapter>)
    requires chapters != [] && IsOfChapter(head, chapters[0].index) && IsOfChapters(rest, chapters[1..])
    ensures IsOfChapters(head + rest, chapters)
    ensures DistinctIndices(chapters) ==> forall k | 0 <= k < |rest| :: rest[k].chapterIndex != chapters[0].index
  {
    var plan := head + rest;
    forall k | 0 <= k < |rest|
      ensures HasIndex(chapters, rest[k].chapterIndex)
      ensures DistinctIndices(chapters) ==> rest[k].chapterIndex != chapters[0].index
    {
    }
    forall k | 0 <= k < |plan| ensures HasIndex(chapters, plan[k].chapterIndex) {
      if k < |head| {
        assert plan[k].chapterIndex == chapters[0].index;
      } else {
        assert plan[k] == rest[k - |head|];
      }
    }
  }

  lemma SelectedAreOfChapter(script: Script, chapter: Chapter, options: BuildOptions)
    ensures IsOfChapter(SelectedDrafts(script, chapter, options), chapter.index)
  {
    DraftsAreOfChapter(chapter, ChapterChunks(script, chapter, options), options);
  }

  lemma DraftsAreOfChapter(chapter: Chapter, chunks: seq<Chunk>, options: BuildOptions)
    ensures IsOfChapter(DraftsOf(chapter, chunks, options), chapter.index)
  {
  }

  lemma {:induction false} DraftsAreOfChapters(script: Script, chapters: seq<Chapter>, options: BuildOptions)
    ensures IsOfChapters(Drafts(script, chapters, options), chapters)
  {
    if chapters != [] {
      DraftsAreOfChapters(script, chapters[1..], options);
      SelectedAreOfChapter(script, chapters[0], options);
      OfChaptersConcat(SelectedDrafts(script, chapters[0], options), Drafts(script, chapters[1..], options), chapters);
    }
  }

  /** Two neighbouring chapters are completed each on its own. */
  lemma CompletedChapters(digest: Digest, options: BuildOptions, head: seq<PlannedChunk>, rest: seq<PlannedChunk>, index: nat)
    requires IsOfChapter(head, index) && forall k | 0 <= k < |rest| :: rest[k].chapterIndex != index
    ensures CompletedAll(digest, options, None, head + rest)
         == CompletedAll(digest, options, None, head) + CompletedAll(digest, options, None, rest)
  {
    if head == [] {
      assert head + rest == rest;
    } else {
      CompletedConcat(digest, options, None, head, rest);
    }
  }

  /** Context never crosses a chapter boundary: the plan is the chapters' own plans, one after the other. */
  lemma {:induction false} PlanIsByChapter(script: Script, digest: Digest, chapters: seq<Chapter>, options: BuildOptions)
    requires DistinctIndices(chapters)
    ensures Plan(script, digest, chapters, options) == PlanByChapter(script, digest, chapters, options)
  {
    if chapters != [] {
      var head, rest := SelectedDrafts(script, chapters[0], options), Drafts(script, chapters[1..], options);
      PlanIsByChapter(script, digest, chapters[1..], options);
      SelectedAreOfChapter(script, chapters[0], options);
      DraftsAreOfChapters(script, chapters[1..], options);
      OfChaptersConcat(head, rest, chapters);
      CompletedChapters(digest, options, head, rest, chapters[0].index);
    }
  }

  // ----- the chapter filter only selects -----

  function Restricted(plan: seq<PlannedChunk>, filter: Option<set<nat>>): seq<PlannedChunk> {
    if plan == [] then []
    else if filter.None? || plan[0].chapterIndex + 1 in filter.value then [plan[0]] + Restricted(plan[1..], filter)
    else Restricted(plan[1..], filter)
  }

  lemma {:induction false} RestrictedConcat(a: seq<PlannedChunk>, b: seq<PlannedChunk>, filter: Option<set<nat>>)
    ensures Restricted(a + b, filter) == Restricted(a, filter) + Restricted(b, filter)
  {
    if a == [] {
      assert a + b == b;
    } else {
      assert (a + b)[1..] == a[1..] + b;
      RestrictedConcat(a[1..], b, filter);
    }
  }

  lemma {:induction false} RestrictedUniform(plan: seq<PlannedChunk>, filter: Option<set<nat>>, chapterIndex: nat)
    requires forall k | 0 <= k < |plan| :: plan[k].chapterIndex == chapterIndex
    ensures Restricted(plan, filter) == if filter.None? || chapterIndex + 1 in filter.value then plan else []
  {
    if plan != [] {
      RestrictedUniform(plan[1..], filter, chapterIndex);
    }
  }

  function Unfiltered(options: BuildOptions): BuildOptions {
    options.(chapterFilter := None)
  }

  /** The filter is no part of a chapter's own plan. */
  lemma {:induction false} FilterIsNotPlanned(digest: Digest, options: BuildOptions, previous: Option<PlannedChunk>, drafts: seq<PlannedChunk>)
    ensures CompletedAll(digest, options, previous, drafts) == CompletedAll(digest, Unfiltered(options), previous, drafts)
    decreases |drafts|
  {
    if drafts != [] {
      FilterIsNotPlanned(digest, options, Some(drafts[0]), drafts[1..]);
    }
  }

  lemma ChapterPlanIgnoresFilter(script: Script, digest: Digest, chapter: Chapter, options: BuildOptions)
    ensures ChapterPlan(script, digest, chapter, options) == ChapterPlan(script, digest, chapter, Unfiltered(options))
  {
    var chunks := ChapterChunks(script, chapter, options);
    assert HeadingMaxChars(options) == HeadingMaxChars(Unfiltered(options));
    DraftsIgnoreFilter(chapter, chunks, options);
    FilterIsNotPlanned(digest, options, None, DraftsOf(chapter, chunks, options));
  }

  lemma DraftsIgnoreFilter(chapter: Chapter, chunks: seq<Chunk>, options: BuildOptions)
    ensures DraftsOf(chapter, chunks, options) == DraftsOf(chapter, chunks, Unfiltered(options))
  {
    var a, b := DraftsOf(chapter, chunks, options), DraftsOf(chapter, chunks, Unfiltered(options));
    forall k | 0 <= k < |a| ensures a[k] == b[k] {
      assert RequestText(chunks[k], options) == RequestText(chunks[k], Unfiltered(options));
    }
  }

  lemma SelectedPlanFilter(script: Script, digest: Digest, chapter: Chapter, options: BuildOptions)
    ensures SelectedPlan(script, digest, chapter, options)
         == Restricted(SelectedPlan(script, digest, chapter, Unfiltered(options)), options.chapterFilter)
  {
    var plan := ChapterPlan(script, digest, chapter, Unfiltered(options));
    ChapterPlanIgnoresFilter(script, digest, chapter, options);
    ChapterPlanIndices(script, digest, chapter, Unfiltered(options));
    RestrictSelected(plan, options.chapterFilter, chapter.index, IsEmpty(chapter));
    SelectedPlanCases(script, digest, chapter, options);
    SelectedPlanCases(script, digest, chapter, Unfiltered(options));
  }

  lemma SelectedPlanCases(script: Script, digest: Digest, chapter: Chapter, options: BuildOptions)
    ensures SelectedPlan(script, digest, chapter, options)
         == if !IsEmpty(chapter) && (options.chapterFilter.None? || chapter.index + 1 in options.chapterFilter.value)
            then ChapterPlan(script, digest, chapter, options) else []
  {
  }

  lemma RestrictSelected(plan: seq<PlannedChunk>, filter: Option<set<nat>>, index: nat, empty: bool)
    requires forall k | 0 <= k < |plan| :: plan[k].chapterIndex == index
    ensures (if !empty && (filter.None? || index + 1 in filter.value) then plan else []) == Restricted(if !empty then plan else [], filter)
  {
    RestrictedUniform(plan, filter, index);
    assert Restricted([], filter) == [];
  }

  lemma {:induction false} ByChapterFilter(script: Script, digest: Digest, chapters: seq<Chapter>, options: BuildOptions)
    ensures PlanByChapter(script, digest, chapters, options)
         == Restricted(PlanByChapter(script, digest, chapters, Unfiltered(options)), options.chapterFilter)
  {
    if chapters != [] {
      var all := Unfiltered(options);
      ByChapterFilter(script, digest, chapters[1..], options);
      SelectedPlanFilter(script, digest, chapters[0], options);
      RestrictedConcat(SelectedPlan(script, digest, chapters[0], all), PlanByChapter(script, digest, chapters[1..], all),
                       options.chapterFilter);
    }
  }

  /** The chunks of one chapter's plan are numbered from 1 and named by chapter and part. */
  ghost predicate IsChapterPlan(plan: seq<PlannedChunk>, index: nat, extension: string) {
    forall k | 0 <= k < |plan| :: IsPart(plan[k], index, k + 1, extension)
  }

  ghost predicate IsPart(chunk: PlannedChunk, index: nat, part: nat, extension: string) {
    chunk.chapterIndex == index && chunk.part == part && chunk.file == FileName(index, part, chunk.synthesis, extension)
  }

  lemma ChapterPlanIndices(script: Script, digest: Digest, chapter: Chapter, options: BuildOptions)
    ensures IsChapterPlan(ChapterPlan(script, digest, chapter, options), chapter.index, options.format.Extension())
  {
    DraftsAreNumbered(digest, chapter, ChapterChunks(script, chapter, options), options);
  }

  lemma DraftsAreNumbered(digest: Digest, chapter: Chapter, chunks: seq<Chunk>, options: BuildOptions)
    ensures IsChapterPlan(CompletedAll(digest, options, None, DraftsOf(chapter, chunks, options)), chapter.index, options.format.Extension())
  {
    var drafts := DraftsOf(chapter, chunks, options);
    forall k | 0 <= k < |drafts| ensures drafts[k].chapterIndex == chapter.index && drafts[k].part == k + 1 {
      assert drafts[k] == Draft(chapter, k + 1, chunks[k], options);
    }
    NumberedPlan(digest, options, drafts, chapter.index);
  }

  lemma NumberedPlan(digest: Digest, options: BuildOptions, drafts: seq<PlannedChunk>, index: nat)
    requires forall k | 0 <= k < |drafts| :: drafts[k].chapterIndex == index && drafts[k].part == k + 1
    ensures IsChapterPlan(CompletedAll(digest, options, None, drafts), index, options.format.Extension())
  {
    var plan := CompletedAll(digest, options, None, drafts);
    CompletedIsNamed(digest, options, None, drafts);
    forall k | 0 <= k < |plan| ensures IsPart(plan[k], index, k + 1, options.format.Extension()) {
      assert Completes(plan[k], drafts[k], options.format.Extension());
    }
  }

  /** A draft filled in: chapter, part and text as they were, and the file named by them and the hash. */
  ghost predicate Completes(chunk: PlannedChunk, draft: PlannedChunk, extension: string) {
    && chunk.chapterIndex == draft.chapterIndex && chunk.part == draft.part && chunk.text == draft.text
    && chunk.file == FileName(draft.chapterIndex, draft.part, chunk.synthesis, extension)
  }

  lemma {:induction false} CompletedIsNamed(digest: Digest, options: BuildOptions, previous: Option<PlannedChunk>, drafts: seq<PlannedChunk>)
    ensures forall k | 0 <= k < |drafts| :: Completes(CompletedAll(digest, options, previous, drafts)[k], drafts[k], options.format.Extension())
    decreases |drafts|
  {
    if drafts != [] {
      CompletedIsNamed(digest, options, Some(drafts[0]), drafts[1..]);
      var plan := CompletedAll(digest, options, previous, drafts);
      forall k | 0 <= k < |drafts| ensures Completes(plan[k], drafts[k], options.format.Extension()) {
        if k > 0 {
          assert Completes(plan[1..][k - 1], drafts[1..][k - 1], options.format.Extension());
        }
      }
    }
  }

  /** The plan of a filtered build is the full plan restricted to those chapters: context, hash and file name included. */
  lemma FilteredPlanIsRestriction(script: Script, digest: Digest, chapters: seq<Chapter>, options: BuildOptions)
    requires DistinctIndices(chapters)
    ensures Plan(script, digest, chapters, options)
         == Restricted(Plan(script, digest, chapters, Unfiltered(options)), options.chapterFilter)
  {
    PlanIsByChapter(script, digest, chapters, options);
    PlanIsByChapter(script, digest, chapters, Unfiltered(options));
    ByChapterFilter(script, digest, chapters, options);
  }

  // ----- file names are distinct -----

  /** How many digits a string begins with. */
  function DigitRun(s: string): nat {
    if s != "" && IsDigit(s[0]) then 1 + DigitRun(s[1..]) else 0
  }

  lemma {:induction false} DigitsThenDash(digits: string, rest: string)
    requires AllDigits(digits)
    ensures DigitRun(digits + ("-" + rest)) == |digits|
  {
    var s := digits + ("-" + rest);
    if digits == "" {
      assert s[0] == '-';
    } else {
      assert s[1..] == digits[1..] + ("-" + rest);
      DigitsThenDash(digits[1..], rest);
    }
  }

  /** Digits up to a dash can be read off a name. */
  lemma DigitsBeforeDash(a: string, rest1: string, b: string, rest2: string)
    requires AllDigits(a) && AllDigits(b)
    requires a + ("-" + rest1) == b + ("-" + rest2)
    ensures a == b && rest1 == rest2
  {
    var s := a + ("-" + rest1);
    DigitsThenDash(a, rest1);
    DigitsThenDash(b, rest2);
    assert a == s[..|a|] == b;
    assert rest1 == s[|a| + 1..] == rest2;
  }

  /** A chunk's file name determines its chapter and its part. */
  lemma FileNameDetermines(c1: nat, p1: nat, h1: string, e1: string, c2: nat, p2: nat, h2: string, e2: string)
    requires FileName(c1, p1, h1, e1) == FileName(c2, p2, h2, e2)
    ensures c1 == c2 && p1 == p2
  {
    var end1, end2 := Sixteen(h1) + "." + e1, Sixteen(h2) + "." + e2;
    var rest1, rest2 := "part-" + (Padded(p1) + ("-" + end1)), "part-" + (Padded(p2) + ("-" + end2));
    FileNameForm(c1, p1, h1, e1);
    FileNameForm(c2, p2, h2, e2);
    var name := FileName(c1, p1, h1, e1);
    assert name[8..] == Padded(c1 + 1) + ("-" + rest1);
    assert name[8..] == Padded(c2 + 1) + ("-" + rest2);
    DigitsBeforeDash(Padded(c1 + 1), rest1, Padded(c2 + 1), rest2);
    PaddedIsInjective(c1 + 1, c2 + 1);
    assert rest1[5..] == Padded(p1) + ("-" + end1) && rest2[5..] == Padded(p2) + ("-" + end2);
    DigitsBeforeDash(Padded(p1), end1, Padded(p2), end2);
    PaddedIsInjective(p1, p2);
  }

  lemma FileNameForm(c: nat, p: nat, h: string, e: string)
    ensures FileName(c, p, h, e)
         == "chapter-" + (Padded(c + 1) + ("-" + ("part-" + (Padded(p) + ("-" + (Sixteen(h) + "." + e))))))
  {
    var end := Sixteen(h) + "." + e;
    assert "-" + Sixteen(h) + "." + e == "-" + end;
    assert "-part-" + (Padded(p) + ("-" + end)) == "-" + ("part-" + (Padded(p) + ("-" + end)));
  }

  ghost predicate FilesAreDistinct(plan: seq<PlannedChunk>) {
    forall i, j | 0 <= i < j < |plan| :: plan[i].file != plan[j].file
  }

  /** Every chunk has the file name of its chapter and part. */
  ghost predicate IsNamed(plan: seq<PlannedChunk>, extension: string) {
    forall k | 0 <= k < |plan| :: plan[k].file == FileName(plan[k].chapterIndex, plan[k].part, plan[k].synthesis, extension)
  }

  ghost predicate KeysAreDistinct(plan: seq<PlannedChunk>) {
    forall i, j | 0 <= i < j < |plan| :: plan[i].chapterIndex != plan[j].chapterIndex || plan[i].part != plan[j].part
  }

  lemma {:induction false} ByChapterIsOfChapters(script: Script, digest: Digest, chapters: seq<Chapter>, options: BuildOptions)
    ensures IsOfChapters(PlanByChapter(script, digest, chapters, options), chapters)
    ensures IsNamed(PlanByChapter(script, digest, chapters, options), options.format.Extension())
  {
    if chapters != [] {
      ByChapterIsOfChapters(script, digest, chapters[1..], options);
      ChapterPlanIndices(script, digest, chapters[0], options);
      OfChaptersConcat(SelectedPlan(script, digest, chapters[0], options), PlanByChapter(script, digest, chapters[1..], options), chapters);
    }
  }

  lemma {:induction false} ByChapterKeys(script: Script, digest: Digest, chapters: seq<Chapter>, options: BuildOptions)
    requires DistinctIndices(chapters)
    ensures KeysAreDistinct(PlanByChapter(script, digest, chapters, options))
  {
    if chapters != [] {
      var head := SelectedPlan(script, digest, chapters[0], options);
      var rest := PlanByChapter(script, digest, chapters[1..], options);
      ByChapterKeys(script, digest, chapters[1..], options);
      ByChapterIsOfChapters(script, digest, chapters[1..], options);
      ChapterPlanIndices(script, digest, chapters[0], options);
      OfChaptersConcat(head, rest, chapters);
      KeysOfConcat(head, rest, chapters[0].index);
    }
  }

  lemma KeysOfConcat(head: seq<PlannedChunk>, rest: seq<PlannedChunk>, index: nat)
    requires forall k | 0 <= k < |head| :: head[k].chapterIndex == index && head[k].part == k + 1
    requires forall k | 0 <= k < |rest| :: rest[k].chapterIndex != index
    requires KeysAreDistinct(rest)
    ensures KeysAreDistinct(head + rest)
  {
  }

  /** No two chunks of a plan share a file. */
  lemma PlanFilesAreDistinct(script: Script, digest: Digest, chapters: seq<Chapter>, options: BuildOptions)
    requires DistinctIndices(chapters)
    ensures FilesAreDistinct(Plan(script, digest, chapters, options))
    ensures IsNamed(Plan(script, digest, chapters, options), options.format.Extension())
  {
    PlanIsByChapter(script, digest, chapters, options);
    ByChapterIsOfChapters(script, digest, chapters, options);
    ByChapterKeys(script, digest, chapters, options);
    NamedFilesAreDistinct(PlanByChapter(script, digest, chapters, options), options.format.Extension());
  }

  lemma NamedFilesAreDistinct(plan: seq<PlannedChunk>, extension: string)
    requires IsNamed(plan, extension) && KeysAreDistinct(plan)
    ensures FilesAreDistinct(plan)
  {
    forall i, j | 0 <= i < j < |plan| ensures plan[i].file != plan[j].file {
      if plan[i].file == plan[j].file {
        FileNameDetermines(plan[i].chapterIndex, plan[i].part, plan[i].synthesis, extension,
                           plan[j].chapterIndex, plan[j].part, plan[j].synthesis, extension);
      }
    }
  }

  // ----- every request fits the limit -----

  /** A heading with its break tag can be within the limit; validation sees to it. */
  predicate HasRoom(options: BuildOptions) {
    HeadingBreakOverhead(options) < options.maxChars
  }

  /** With such options every request has 1 to `max_chars` characters, break tag and its space included. */
  lemma RequestsFit(script: Script, digest: Digest, chapters: seq<Chapter>, options: BuildOptions, k: nat)
    requires HasRoom(options)
    requires k < |Plan(script, digest, chapters, options)|
    ensures 0 < |Plan(script, digest, chapters, options)[k].text| <= options.maxChars
  {
    CompletedIsNamed(digest, options, None, Drafts(script, chapters, options));
    DraftsFit(script, chapters, options);
  }

  ghost predicate AllFit(drafts: seq<PlannedChunk>, options: BuildOptions) {
    forall k | 0 <= k < |drafts| :: FitsRequest(drafts[k].text, options)
  }

  ghost predicate FitsRequest(text: string, options: BuildOptions) {
    0 < |text| <= options.maxChars
  }

  lemma ChapterDraftsFit(script: Script, chapter: Chapter, options: BuildOptions)
    requires HasRoom(options)
    ensures AllFit(SelectedDrafts(script, chapter, options), options)
  {
    ChunksKeepTextWithinLimits(script, chapter.blocks, options.maxChars, HeadingMaxChars(options));
    DraftsOfFit(chapter, ChapterChunks(script, chapter, options), options);
  }

  lemma DraftsOfFit(chapter: Chapter, chunks: seq<Chunk>, options: BuildOptions)
    requires HasRoom(options) && WithinLimits(chunks, options.maxChars, HeadingMaxChars(options))
    ensures AllFit(DraftsOf(chapter, chunks, options), options)
  {
    forall k | 0 <= k < |chunks| ensures FitsRequest(DraftsOf(chapter, chunks, options)[k].text, options) {
      RequestFits(chunks[k], options);
    }
  }

  lemma RequestFits(chunk: Chunk, options: BuildOptions)
    requires HasRoom(options)
    requires 0 < |chunk.text| <= AtLeastOne(if chunk.kind.BodyChunk? then options.maxChars else HeadingMaxChars(options))
    ensures FitsRequest(RequestText(chunk, options), options)
  {
  }

  lemma {:induction false} DraftsFit(script: Script, chapters: seq<Chapter>, options: BuildOptions)
    requires HasRoom(options)
    ensures AllFit(Drafts(script, chapters, options), options)
  {
    if chapters != [] {
      DraftsFit(script, chapters[1..], options);
      ChapterDraftsFit(script, chapters[0], options);
      FitConcat(SelectedDrafts(script, chapters[0], options), Drafts(script, chapters[1..], options), options);
    }
  }

  lemma FitConcat(a: seq<PlannedChunk>, b: seq<PlannedChunk>, options: BuildOptions)
    requires AllFit(a, options) && AllFit(b, options)
    ensures AllFit(a + b, options)
  {
  }

  /** Changing the break tag leaves the body chunks of a chapter as they are. */
  lemma BreakTagKeepsBody(script: Script, chapter: Chapter, options: BuildOptions, other: Option<string>)
    ensures OfKind(ChapterChunks(script, chapter, options), true)
         == OfKind(ChapterChunks(script, chapter, options.(headingBreakTag := other)), true)
  {
    var changed := options.(headingBreakTag := other);
    LimitsAreIndependent(script, chapter.blocks, options.maxChars, HeadingMaxChars(options), changed.maxChars, HeadingMaxChars(changed));
  }
}
