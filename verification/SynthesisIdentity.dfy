/** What the cache identity of a planned chunk depends on: every option that changes the audio, its request, its kind and
    its neighbours' context, and nothing else (crates/bookforge-audio/src/builder.rs:346-384, 1018-1124). */
module SynthesisIdentity {
  import opened Options
  import opened Strings
  import opened Sentences
  import opened Chunking
  import opened Planning
  import opened PlanProperties
  import opened BreakTags
  import opened Numbers

  // ----- the context a record holds -----

  /** What a neighbour's request lends: nothing without context or text, else its last characters, as many as there are up to `chars`. */
  ghost predicate IsEndOf(lent: Option<string>, text: string, chars: nat) {
    && (lent.Some? <==> chars > 0 && text != "")
    && (lent.Some? ==> |lent.value| <= |text| && lent.value == text[|text| - |lent.value|..]
                       && (|lent.value| == chars || (|lent.value| < chars && lent.value == text)))
  }

  /** The same for the first characters. */
  ghost predicate IsBeginOf(lent: Option<string>, text: string, chars: nat) {
    && (lent.Some? <==> chars > 0 && text != "")
    && (lent.Some? ==> lent.value <= text && (|lent.value| == chars || (|lent.value| < chars && lent.value == text)))
  }

  ghost predicate SameChapter(plan: seq<PlannedChunk>, a: int, b: int) {
    0 <= a < |plan| && 0 <= b < |plan| && plan[a].chapterIndex == plan[b].chapterIndex
  }

  /** Every record holds the end of the request before it and the begin of the request behind it, both from its own
      chapter only. */
  lemma ContextIsLent(script: Script, digest: Digest, chapters: seq<Chapter>, options: BuildOptions, k: nat)
    requires k < |Plan(script, digest, chapters, options)|
    ensures var plan := Plan(script, digest, chapters, options);
      && (if SameChapter(plan, k - 1, k) then IsEndOf(plan[k].previousText, plan[k - 1].text, options.contextChars)
          else plan[k].previousText == None)
      && (if SameChapter(plan, k, k + 1) then IsBeginOf(plan[k].nextText, plan[k + 1].text, options.contextChars)
          else plan[k].nextText == None)
  {
    LentFromBefore(digest, options, Drafts(script, chapters, options), k);
    LentFromBehind(digest, options, Drafts(script, chapters, options), k);
  }

  lemma LentFromBefore(digest: Digest, options: BuildOptions, drafts: seq<PlannedChunk>, k: nat)
    requires k < |drafts|
    ensures var plan := CompletedAll(digest, options, None, drafts);
      if SameChapter(plan, k - 1, k) then IsEndOf(plan[k].previousText, plan[k - 1].text, options.contextChars)
      else plan[k].previousText == None
  {
    CompletedHere(digest, options, drafts, k);
    if 0 < k {
      CompletedHere(digest, options, drafts, k - 1);
      EndIsLent(drafts[k - 1].text, options.contextChars);
    }
  }

  lemma LentFromBehind(digest: Digest, options: BuildOptions, drafts: seq<PlannedChunk>, k: nat)
    requires k < |drafts|
    ensures var plan := CompletedAll(digest, options, None, drafts);
      if SameChapter(plan, k, k + 1) then IsBeginOf(plan[k].nextText, plan[k + 1].text, options.contextChars)
      else plan[k].nextText == None
  {
    var next := k + 1;
    CompletedHere(digest, options, drafts, k);
    if next < |drafts| {
      CompletedHere(digest, options, drafts, next);
      BeginIsLent(drafts[next].text, options.contextChars);
    }
  }

  lemma CompletedHere(digest: Digest, options: BuildOptions, drafts: seq<PlannedChunk>, k: nat)
    requires k < |drafts|
    ensures CompletedAll(digest, options, None, drafts)[k] == CompletedAt(digest, options, drafts, k)
  {
    CompletedAllIsPointwise(digest, options, None, drafts);
    assert At(drafts, k - 1) == if k == 0 then None else Some(drafts[k - 1]);
  }

  lemma EndIsLent(text: string, chars: nat)
    ensures IsEndOf(ContextSlice(text, chars, true), text, chars)
  {
  }

  lemma BeginIsLent(text: string, chars: nat)
    ensures IsBeginOf(ContextSlice(text, chars, false), text, chars)
  {
  }

  // ----- the hash -----

  /** The options that change what a voice service is asked for. */
  ghost predicate SameSynthesisOptions(a: BuildOptions, b: BuildOptions) {
    && a.synthesisId == b.synthesisId && a.voice == b.voice && a.format == b.format && a.speedText == b.speedText
    && a.instructions == b.instructions && a.seedText == b.seedText && a.language == b.language
    && a.normalization == b.normalization
  }

  ghost predicate SameRequest(a: PlannedChunk, b: PlannedChunk) {
    && a.text == b.text && a.kind == b.kind && a.previousText == b.previousText && a.nextText == b.nextText
  }

  lemma FormatsDiffer(a: Format, b: Format)
    ensures a.Extension() == b.Extension() <==> a == b
  {
    assert "mp3"[0] == 'm' && "opus"[0] == 'o' && "aac"[0] == 'a' && "flac"[0] == 'f' && "wav"[0] == 'w' && "pcm"[0] == 'p';
  }

  lemma KindsDiffer(a: ChunkKind, b: ChunkKind)
    ensures KindText(a) == KindText(b) <==> a == b
  {
    assert "title"[0] == 't' && "heading"[0] == 'h' && "body"[0] == 'b';
  }

  lemma FieldsAlike(a: BuildOptions, textA: string, kindA: ChunkKind, beforeA: Option<string>, afterA: Option<string>,
                    b: BuildOptions, textB: string, kindB: ChunkKind, beforeB: Option<string>, afterB: Option<string>)
    requires Fields(a, textA, kindA, beforeA, afterA) == Fields(b, textB, kindB, beforeB, afterB)
    ensures a.synthesisId == b.synthesisId && a.voice == b.voice && a.format.Extension() == b.format.Extension()
    ensures a.speedText == b.speedText && a.instructions == b.instructions && textA == textB && a.seedText == b.seedText
    ensures a.language == b.language && a.normalization == b.normalization && OrEmpty(beforeA) == OrEmpty(beforeB)
    ensures OrEmpty(afterA) == OrEmpty(afterB) && KindText(kindA) == KindText(kindB)
  {
    var fieldsA, fieldsB := Fields(a, textA, kindA, beforeA, afterA), Fields(b, textB, kindB, beforeB, afterB);
    assert fieldsA[1] == a.synthesisId && fieldsA[2] == a.voice && fieldsA[3] == a.format.Extension() && fieldsA[4] == a.speedText;
    assert fieldsB[1] == b.synthesisId && fieldsB[2] == b.voice && fieldsB[3] == b.format.Extension() && fieldsB[4] == b.speedText;
    assert fieldsA[5] == a.instructions && fieldsA[6] == textA && fieldsA[7] == a.seedText && fieldsA[8] == a.language;
    assert fieldsB[5] == b.instructions && fieldsB[6] == textB && fieldsB[7] == b.seedText && fieldsB[8] == b.language;
    assert fieldsA[9] == a.normalization && fieldsA[10] == OrEmpty(beforeA) && fieldsA[11] == OrEmpty(afterA) && fieldsA[12] == KindText(kindA);
    assert fieldsB[9] == b.normalization && fieldsB[10] == OrEmpty(beforeB) && fieldsB[11] == OrEmpty(afterB) && fieldsB[12] == KindText(kindB);
  }

  lemma HashedAlike(digest: Digest, a: BuildOptions, textA: string, kindA: ChunkKind, beforeA: Option<string>, afterA: Option<string>,
                    b: BuildOptions, textB: string, kindB: ChunkKind, beforeB: Option<string>, afterB: Option<string>)
    requires Injective(digest)
    requires beforeA != Some("") && afterA != Some("") && beforeB != Some("") && afterB != Some("")
    ensures SynthesisHash(digest, a, textA, kindA, beforeA, afterA) == SynthesisHash(digest, b, textB, kindB, beforeB, afterB)
       <==> SameSynthesisOptions(a, b) && textA == textB && kindA == kindB && beforeA == beforeB && afterA == afterB
  {
    FormatsDiffer(a.format, b.format);
    KindsDiffer(kindA, kindB);
    var fieldsA, fieldsB := Fields(a, textA, kindA, beforeA, afterA), Fields(b, textB, kindB, beforeB, afterB);
    assert digest(fieldsA) == SynthesisHash(digest, a, textA, kindA, beforeA, afterA);
    assert digest(fieldsB) == SynthesisHash(digest, b, textB, kindB, beforeB, afterB);
    if fieldsA == fieldsB {
      FieldsAlike(a, textA, kindA, beforeA, afterA, b, textB, kindB, beforeB, afterB);
    }
  }

  lemma HashOfRecord(script: Script, digest: Digest, chapters: seq<Chapter>, options: BuildOptions, k: nat)
    requires k < |Plan(script, digest, chapters, options)|
    ensures var record := Plan(script, digest, chapters, options)[k];
      && record.synthesis == SynthesisHash(digest, options, record.text, record.kind, record.previousText, record.nextText)
      && record.file == FileName(record.chapterIndex, record.part, record.synthesis, options.format.Extension())
      && record.previousText != Some("") && record.nextText != Some("")
  {
    HashOfCompleted(digest, options, Drafts(script, chapters, options), k);
  }

  lemma HashOfCompleted(digest: Digest, options: BuildOptions, drafts: seq<PlannedChunk>, k: nat)
    requires k < |drafts|
    ensures var record := CompletedAll(digest, options, None, drafts)[k];
      && record.synthesis == SynthesisHash(digest, options, record.text, record.kind, record.previousText, record.nextText)
      && record.file == FileName(record.chapterIndex, record.part, record.synthesis, options.format.Extension())
      && record.previousText != Some("") && record.nextText != Some("")
  {
    CompletedHere(digest, options, drafts, k);
    CompletedIsHashed(digest, options, drafts[k], At(drafts, k - 1), At(drafts, k + 1));
  }

  lemma CompletedIsHashed(digest: Digest, options: BuildOptions, draft: PlannedChunk, previous: Option<PlannedChunk>, next: Option<PlannedChunk>)
    ensures var record := Completed(digest, options, draft, previous, next);
      && record.synthesis == SynthesisHash(digest, options, record.text, record.kind, record.previousText, record.nextText)
      && record.file == FileName(record.chapterIndex, record.part, record.synthesis, options.format.Extension())
      && record.previousText != Some("") && record.nextText != Some("")
  {
  }

  /** Two planned chunks, of whatever books and under whatever options, have the same cache identity if and only if they
      ask for the same audio: every option that changes it, the request, its kind and both contexts are equal. */
  lemma SynthesisIff(digest: Digest, scriptA: Script, chaptersA: seq<Chapter>, optionsA: BuildOptions, a: nat,
                     scriptB: Script, chaptersB: seq<Chapter>, optionsB: BuildOptions, b: nat)
    requires Injective(digest)
    requires a < |Plan(scriptA, digest, chaptersA, optionsA)| && b < |Plan(scriptB, digest, chaptersB, optionsB)|
    ensures var recordA, recordB := Plan(scriptA, digest, chaptersA, optionsA)[a], Plan(scriptB, digest, chaptersB, optionsB)[b];
      recordA.synthesis == recordB.synthesis <==> SameSynthesisOptions(optionsA, optionsB) && SameRequest(recordA, recordB)
  {
    HashOfRecord(scriptA, digest, chaptersA, optionsA, a);
    HashOfRecord(scriptB, digest, chaptersB, optionsB, b);
    var x, y := Plan(scriptA, digest, chaptersA, optionsA)[a], Plan(scriptB, digest, chaptersB, optionsB)[b];
    HashedAlike(digest, optionsA, x.text, x.kind, x.previousText, x.nextText, optionsB, y.text, y.kind, y.previousText, y.nextText);
  }

  /** With any of these options changed no planned chunk keeps its cache identity, nor shares it with another one. */
  lemma OtherOptionsOtherIdentities(digest: Digest, scriptA: Script, chaptersA: seq<Chapter>, optionsA: BuildOptions,
                                    scriptB: Script, chaptersB: seq<Chapter>, optionsB: BuildOptions)
    requires Injective(digest) && !SameSynthesisOptions(optionsA, optionsB)
    ensures forall x, y | x in Plan(scriptA, digest, chaptersA, optionsA) && y in Plan(scriptB, digest, chaptersB, optionsB) ::
      x.synthesis != y.synthesis
  {
    var planA, planB := Plan(scriptA, digest, chaptersA, optionsA), Plan(scriptB, digest, chaptersB, optionsB);
    forall x, y | x in planA && y in planB ensures x.synthesis != y.synthesis {
      var a: nat :| a < |planA| && planA[a] == x;
      var b: nat :| b < |planB| && planB[b] == y;
      SynthesisIff(digest, scriptA, chaptersA, optionsA, a, scriptB, chaptersB, optionsB, b);
    }
  }

  // ----- the file name -----

  /** Already the sixteen digits that a file name shows tell any two lists of values apart. */
  ghost predicate ShortInjective(digest: Digest) {
    (forall values :: |digest(values)| >= 16) && forall a, b :: digest(a)[..16] == digest(b)[..16] ==> a == b
  }

  lemma ShortHashes(digest: Digest, a: BuildOptions, x: PlannedChunk, b: BuildOptions, y: PlannedChunk)
    requires ShortInjective(digest)
    requires x.synthesis == SynthesisHash(digest, a, x.text, x.kind, x.previousText, x.nextText)
    requires y.synthesis == SynthesisHash(digest, b, y.text, y.kind, y.previousText, y.nextText)
    ensures |x.synthesis| >= 16 && |y.synthesis| >= 16
    ensures Sixteen(x.synthesis) == Sixteen(y.synthesis) ==> x.synthesis == y.synthesis
  {
    assert Sixteen(x.synthesis) == x.synthesis[..16] && Sixteen(y.synthesis) == y.synthesis[..16];
    var fieldsA, fieldsB := Fields(a, x.text, x.kind, x.previousText, x.nextText), Fields(b, y.text, y.kind, y.previousText, y.nextText);
    assert digest(fieldsA) == x.synthesis && digest(fieldsB) == y.synthesis;
  }

  lemma FileNameShowsHash(c1: nat, p1: nat, h1: string, e1: string, c2: nat, p2: nat, h2: string, e2: string)
    requires |h1| >= 16 && |h2| >= 16 && FileName(c1, p1, h1, e1) == FileName(c2, p2, h2, e2)
    ensures Sixteen(h1) == Sixteen(h2)
  {
    FileNameDetermines(c1, p1, h1, e1, c2, p2, h2, e2);
    FileNameForm(c1, p1, h1, e1);
    FileNameForm(c2, p2, h2, e2);
    var front, end1, end2 := "chapter-" + (Padded(c1 + 1) + ("-" + ("part-" + (Padded(p1) + "-")))), Sixteen(h1) + "." + e1, Sixteen(h2) + "." + e2;
    NameEnd(Padded(c1 + 1), Padded(p1), end1);
    NameEnd(Padded(c1 + 1), Padded(p1), end2);
    assert end1 == (front + end1)[|front|..] && end2 == (front + end2)[|front|..];
    assert end1[..16] == Sixteen(h1) && end2[..16] == Sixteen(h2);
  }

  lemma NameEnd(chapter: string, part: string, end: string)
    ensures "chapter-" + (chapter + ("-" + ("part-" + (part + ("-" + end)))))
         == "chapter-" + (chapter + ("-" + ("part-" + (part + "-")))) + end
  {
    assert part + ("-" + end) == (part + "-") + end;
    assert "part-" + ((part + "-") + end) == ("part-" + (part + "-")) + end;
  }

  /** Two planned chunks have the same file name if and only if they are the same part of the same chapter and ask for the
      same audio. */
  lemma FileIff(digest: Digest, scriptA: Script, chaptersA: seq<Chapter>, optionsA: BuildOptions, a: nat,
                scriptB: Script, chaptersB: seq<Chapter>, optionsB: BuildOptions, b: nat)
    requires ShortInjective(digest)
    requires a < |Plan(scriptA, digest, chaptersA, optionsA)| && b < |Plan(scriptB, digest, chaptersB, optionsB)|
    ensures var recordA, recordB := Plan(scriptA, digest, chaptersA, optionsA)[a], Plan(scriptB, digest, chaptersB, optionsB)[b];
      recordA.file == recordB.file <==>
        && recordA.chapterIndex == recordB.chapterIndex && recordA.part == recordB.part
        && SameSynthesisOptions(optionsA, optionsB) && SameRequest(recordA, recordB)
  {
    HashOfRecord(scriptA, digest, chaptersA, optionsA, a);
    HashOfRecord(scriptB, digest, chaptersB, optionsB, b);
    SynthesisIff(digest, scriptA, chaptersA, optionsA, a, scriptB, chaptersB, optionsB, b);
    var x, y := Plan(scriptA, digest, chaptersA, optionsA)[a], Plan(scriptB, digest, chaptersB, optionsB)[b];
    ShortHashes(digest, optionsA, x, optionsB, y);
    if x.file == y.file {
      var e1, e2 := optionsA.format.Extension(), optionsB.format.Extension();
      FileNameDetermines(x.chapterIndex, x.part, x.synthesis, e1, y.chapterIndex, y.part, y.synthesis, e2);
      FileNameShowsHash(x.chapterIndex, x.part, x.synthesis, e1, y.chapterIndex, y.part, y.synthesis, e2);
    }
  }

  // ----- what a record asks for -----

  function AskedText(chunk: Chunk, tag: Option<string>): string {
    match (chunk.kind, tag)
    case (BodyChunk, _) => chunk.text
    case (_, None) => chunk.text
    case (_, Some(value)) => if value == "" then chunk.text else chunk.text + " " + value
  }

  /** The chunks of a chapter become its records in order, numbered from 1: body text as it is, titles and headings with
      the break tag and a space before it, if there is one. */
  lemma RecordsAreChunks(script: Script, digest: Digest, chapter: Chapter, options: BuildOptions, k: nat)
    requires k < |ChapterPlan(script, digest, chapter, options)|
    ensures var chunks, record := ChapterChunks(script, chapter, options), ChapterPlan(script, digest, chapter, options)[k];
      && |ChapterPlan(script, digest, chapter, options)| == |chunks|
      && record.chapterIndex == chapter.index && record.chapterTitle == chapter.title && record.part == k + 1
      && record.kind == chunks[k].kind && record.text == AskedText(chunks[k], options.headingBreakTag)
  {
    RecordAt(script, digest, chapter, options, k);
    RecordAsks(digest, chapter, ChapterChunks(script, chapter, options), options, k);
  }

  lemma RecordAsks(digest: Digest, chapter: Chapter, chunks: seq<Chunk>, options: BuildOptions, k: nat)
    requires k < |chunks|
    ensures var record := RecordOf(digest, chapter, chunks, options, k);
      && record.chapterIndex == chapter.index && record.chapterTitle == chapter.title && record.part == k + 1
      && record.kind == chunks[k].kind && record.text == AskedText(chunks[k], options.headingBreakTag)
  {
  }
}
