# Verified model of Bookforge's narration and audit core

This project models the parts of Bookforge where a small slip loses text, pays twice or lets two processes
collide, and proves what those parts are for.

- **From text to chunks.** Source blocks become chapters (`Chapters`), paragraphs become sentences (`Sentences`),
  sentences become chunks within two limits (`LongUnits`, `Packing`, `Chunking`), chunks become a plan with neighbour
  context and content-addressed file names (`Planning`, `PlanProperties`), and the plan decides what a prune may delete
  (`Cleanup`, `StitchedNames`). `SectionReading`, `PdfReading` and `PdfPageBreaks` say which blocks are read out,
  `SentenceCuts` where a text is cut, `SynthesisIdentity` what a cache identity depends on, `CleanupNames` and `TitleNames`
  what the file names are, each without the functions it describes. `BreakTags`, `FirstPieces`, `TagContext` and
  `TagStability` follow a heading break tag through the plan. `GreedyPacking` holds the optimality argument that chunking,
  long units and passages share.
- **Builds that stop anywhere.** `Manifest` collects finished tasks in any order; `ResumableBuild` is the
  crash-and-resume machine over chunk files, manifest and provider calls, `BuildAccounts` what a finished build has paid for
  and leaves, `RetryHistory` the law about paying twice.
- **Several processes.** `OwnerRecord` and `DirectoryLock` model the output-directory lock and its handoff, torn record
  writes included; `LaunchClaim` models the launch claim with every read-then-act as two steps, `LaunchSafety` proves when
  it is safe, `LaunchPrompt` and `LaunchCallers` what would be left if every pair were one act, and `LaunchRaces` holds the
  runs that break it.
- **Streams against batches.** `EventLines` (lines, events and corrupt lines of an event log) and `EventLog` (its tailer), `StderrTail` (the bounded error tail), `Stitch` and
  `ChapterMarkers` (play order, gap files and chapter markers).
- **Search, extraction and sampling.** `TandemRepeat` (the repeat search), `Paragraphs` (the XHTML walk),
  `ParagraphStretches`, `ParagraphPlaces` and `ParagraphKeys` (its paragraphs and their locations), `Passages` and `Sampling` (evaluation passages and their seeded sample).

`Strings`, `Numbers`, `Options`, `Selection` and `Sorting` hold what several modules need. Code that loops or mutates in the source is
a method or a class here, proved against a specification function; the laws are lemmas about those functions. Strings are
sequences of Unicode scalar values. `dafny verify dfyconfig.toml` checks the project.

## What the proofs brought to light

- **Reclaim, adopt and remove windows are open.** The comments at crates/bookforge-cli/src/control.rs:443-450, 606-609,
  755-758, 811-815 and 873-877 say that the windows between a check and its rename are closed. They are not: `SafeIffTimely`
  and `RunIsSafeIff` say exactly which acts and which runs are safe, and `ReclaimRace`, `AdoptionRace`, `LateRemovalRace` and
  `ParkedClaimRace` are runs with exactly one late act each. In the last two the code's fallback for a failed rename back
  never applies on Unix, where a rename replaces an existing file. The removal's window is entered in ordinary use: a claim
  that was cleared (crates/bookforge-cli/src/commands/resume.rs:733-735) removes once more when it is dropped, and a retry
  that lost its claim to another process clears again (crates/bookforge-cli/src/commands/retry.rs:295-308, 399-401).
- **The heartbeat is safe as long as the others are.** It opens no window of its own (`HeartbeatWindow`), but a late
  reclaim, adoption or removal by another process lets a verified heartbeat overwrite a rival's live claim (`HeartbeatRace`).
- **The windows are all that is wrong.** Were each check and its act one act, the claim as its callers use it would have one
  live holder at most in every run (`CallersAreExclusive`). That rests on the callers: a removal checks the nonce only
  (control.rs:887) and an adoption keeps it (control.rs:803-814), so a parent that cleared a claim before its child was gone
  would remove the child's (`TakenBackRun`, `PromptRunIsSafeIff`). The callers wait for the child
  (retry.rs:319-323, 574-581) or know that it never ran or has exited (crates/bookforge-cli/src/commands/serve/jobs.rs:610-627).
- **A failed-only retry can pay for audio that is on disk.** A chunk whose record a crash lost is refused by a retry that
  was meant for another chunk and is thereby recorded as failed; the retry after that pays for it
  (crates/bookforge-audio/src/builder.rs:676-710, `RetryCanRepay`). It takes two retries in a row
  (`PayingTwiceNeedsTwoRetries`); ordinary builds never do this (`FirstAudioIsKept`).
- **A read error in the middle of a poll can lose events.** The bytes are consumed, the events parsed from them are dropped
  with the error (crates/bookforge-cli/src/eventlog.rs:89-101): exactly when a read fails after earlier reads of the same
  poll completed a line that parses (`DeliveredIffNoneLost`, `TwoReadsLoseAnEvent`).
- **A break tag can change body chunks' cache identities.** The comment at crates/bookforge-audio/src/builder.rs:314-316
  says it does not. `ChapterKeptIff` is the exact condition on blocks and options: with neighbour context and room for a tag
  it fails for every chapter in which text follows a heading (`HeadedTextIsNotKept`), the tagged heading being the text's
  context. Without context it holds (`BreakTagKeepsIdentities`), but a heading cut into more parts still moves part numbers
  (`TagMovesParts`, `RecordKeptIff`).
- **A stitched chapter can be listed as a stale chunk.** The comment at crates/bookforge-audio/src/cleanup.rs:34-37 says that
  none can; a chapter titled "part 002 0123456789abcdef" is (`StitchedFileIsListedIff`, `PartTitleIsListed`).
- **The failure list and the progress notes follow completion order**; everything else about a finished build does not
  (`Collect`, `OrderDoesNotMatter`).

## Model

| member | source | states |
|---|---|---|
| `TandemRepeat.StrongestRepeat` | scripts/epub_quality_audit.py:184-198 | Despite its skip the search is exact: it reports a true tandem repeat whose excess is the greatest over every start and every width up to min(12, n/2) that meets the thresholds, the first such in scan order, and nothing only when none exists |
| `TandemRepeat.CountRepeats` | scripts/epub_quality_audit.py:190-192 | The inner loop stops at the greatest number of adjacent copies of the phrase |
| `TandemRepeat.SkipIsLossless` | scripts/epub_quality_audit.py:197 | A start that the skip jumps over carries no more copies of its phrase than the run it lies in |
| `TandemRepeat.TandemIsCopies` | scripts/epub_quality_audit.py:189-192 | Periodicity and `phrase` written `times` times over are the same thing, both directions |
| `TandemRepeat.CandidateIsCopies` | scripts/epub_quality_audit.py:185-194 | In numbers: a candidate is a phrase of 1 to 12 words, no more than half of them all, whose copies stand there at least three times, or twice if it has at least four words, covering at least six words; its excess is what they cover beyond the first copy |
| `TandemRepeat.ScanStep` | scripts/epub_quality_audit.py:187-197 | One turn of the scan keeps the best repeat so far the strongest of all starts covered, the jumped ones included |
| `TandemRepeat.LastCopy` | scripts/epub_quality_audit.py:191-192 | Where the copies of a maximal run end |
| `GreedyPacking.GreedyIsFewest` | crates/bookforge-audio/src/text.rs:664-695 | Taking every in-order group as long as it may be never needs more groups than any other grouping, for any hereditary limit |
| `GreedyPacking.CutsAreGreedy` | crates/bookforge-cli/examples/judge_translation.rs:388-408 | Cutting only where the longer run is inadmissible gives a grouping of admissible runs, none of which could have taken one item more |
| `Packing.PackNonBlank` | crates/bookforge-audio/src/text.rs:664-701 | The packing loop keeps every non-blank character in order, whatever harder split it is given for over-long units, as long as that split does |
| `Packing.PackWithin` | crates/bookforge-audio/src/text.rs:664-701 | Every packed piece is non-empty and within the limit |
| `Packing.PackFollowsCuts` | crates/bookforge-audio/src/text.rs:664-695 | The packing loop's pieces are the joined texts of the groups that are cut only where the next unit does not fit |
| `Packing.PackIsFewest` | crates/bookforge-audio/src/text.rs:664-695 | When no unit exceeds the limit, packing joins in-order groups and no grouping within the limit has fewer |
| `Sentences.SplitSentences` | crates/bookforge-audio/src/text.rs:710-749 | The loop with its look-ahead, tail attachment and abbreviation test computes the specified split, whose cuts `SentencesAreCut` describes on the text |
| `Sentences.AttachTail` | crates/bookforge-audio/src/text.rs:720-734 | Closing quotes and ellipses behind a terminator go to its sentence, and the index stops behind them |
| `Sentences.PiecesAreTheText` | crates/bookforge-audio/src/text.rs:716-749 | The pieces a text is cut into, put together, are the text: cutting drops and reorders nothing at all |
| `Sentences.SplitKeepsText` | crates/bookforge-audio/src/text.rs:710-749 | The sentences hold exactly the non-blank characters of the text, in order |
| `Sentences.SplitIsTrimmed` | crates/bookforge-audio/src/text.rs:822-828 | No sentence is empty or has whitespace at an end |
| `Sentences.AbbreviationAfterNewline` | crates/bookforge-audio/src/text.rs:789-820 | A newline carried in front of a sentence does not change the abbreviation test |
| `Sentences.CarriedNewline` | crates/bookforge-audio/src/text.rs:740-748 | A newline carried over changes no later cut; it only stands at the head of the next piece |
| `Sentences.PiecesOfParagraph` | crates/bookforge-audio/src/text.rs:716-748 | A newline-free paragraph is cut as if nothing followed its blank line: no look-ahead reaches past it |
| `Sentences.SplitAtBlankLine` | crates/bookforge-audio/src/text.rs:710-749 | Splitting at a blank line: the sentences before it, then the sentences after it |
| `Sentences.SplitIsHomomorphic` | crates/bookforge-audio/src/text.rs:710-771 | For newline-free paragraphs, splitting their blank-line join is splitting each of them and concatenating |
| `SentenceCuts.SentencesAreCut` | crates/bookforge-audio/src/text.rs:710-828 | For every text and script test: a piece begun at `s` ends at the first `e` that is the end of the text, or stands behind the first newline of a blank line, or closes all closing marks and then all ellipses behind a terminator that is full-width, or is followed by whitespace or the end while the alphanumeric word before the last dot of the piece is neither one character nor a listed abbreviation; the sentences are the pieces that hold text, trimmed, in order |
| `SentenceCuts.CutsAreUnique` | crates/bookforge-audio/src/text.rs:716-749 | That rule leaves no choice: a text has one list of cuts |
| `SentenceCuts.NoCutInsideWord` | crates/bookforge-audio/src/text.rs:758-771 | A `.`, `!` or `?` with more text directly behind it never ends a sentence, as in 3.14 |
| `SentenceCuts.NoCutBehindShortForm` | crates/bookforge-audio/src/text.rs:789-820 | Neither does a dot behind a single character or a listed abbreviation, unless the text ends there |
| `SentenceCuts.DoctorStaysWithName` | crates/bookforge-audio/src/text.rs:780-820 | So `Dr.` is never cut off from the name behind it, wherever it stands |
| `LongUnits.CollapseWhitespace` | crates/bookforge-audio/src/text.rs:572-587 | The character loop yields the words joined by single spaces |
| `LongUnits.WordsAreRuns` | crates/bookforge-audio/src/text.rs:572-587 | The words of a text are its maximal runs without whitespace: all of them, in order |
| `LongUnits.CollapsedIsOneLine` | crates/bookforge-audio/src/text.rs:572-587 | Collapsing keeps the visible text and leaves no line break, which is what the paragraph law asks for |
| `LongUnits.SplitByChars` | crates/bookforge-audio/src/text.rs:912-928 | The counting loop cuts a word into slices of exactly the limit, the last one possibly shorter |
| `LongUnits.SlicesReproduce` | crates/bookforge-audio/src/text.rs:912-928 | The slices concatenate to the word, none exceeds the limit |
| `LongUnits.SlicesAreFull` | crates/bookforge-audio/src/text.rs:912-928 | Every slice but the last has exactly the limit, and none is empty |
| `LongUnits.SplitUnspacedClauses` | crates/bookforge-audio/src/text.rs:895-910 | The loop cuts behind each clause mark once something visible is in hand, and drops a blank rest |
| `LongUnits.ClausesEndAtMarks` | crates/bookforge-audio/src/text.rs:895-910 | Every clause but the last ends at its first clause mark, the last one there or without any: the unit is cut behind every mark and nowhere else |
| `LongUnits.ClausesReproduceIff` | crates/bookforge-audio/src/text.rs:890-910 | The clauses put together are the unit, character for character, if and only if what follows the last clause mark is empty or not blank |
| `LongUnits.Place` | crates/bookforge-audio/src/text.rs:869-881 | The two length tests with their separator are the question whether the joined text is within the limit |
| `LongUnits.SplitLongUnit` | crates/bookforge-audio/src/text.rs:840-888 | The loop over words or clauses computes the specified packing with character slices for over-long parts |
| `LongUnits.LongUnitSplitsWell` | crates/bookforge-audio/src/text.rs:840-888 | A long unit of any script keeps its visible text and every piece is non-empty and within the limit |
| `LongUnits.UnspacedReproducesIff` | crates/bookforge-audio/src/text.rs:845-888 | The pieces of an unspaced unit reproduce it exactly, as the comment says, under that same condition, which every trimmed unit meets |
| `LongUnits.LongUnitIsFewest` | crates/bookforge-audio/src/text.rs:859-887 | When no word (or clause) exceeds the limit, no in-order grouping makes fewer pieces |
| `Chunking.ChunkBodyText` | crates/bookforge-audio/src/text.rs:658-698 | The loop over sentences computes the specified body chunks |
| `Chunking.BodyChunksSplitWell` | crates/bookforge-audio/src/text.rs:658-698 | Body chunks keep the visible text in order and are non-empty and within the limit |
| `Chunking.BodyChunksAreFewest` | crates/bookforge-audio/src/text.rs:664-695 | When no sentence exceeds the limit, the chunks are joined in-order groups and as few as any grouping allows |
| `Chunking.BodyChunksOfParagraphs` | crates/bookforge-audio/src/text.rs:617-634 | A run of newline-free paragraphs is packed from the sentences of each of them: no sentence spans two paragraphs |
| `Chunking.ChunkBlocksWithHeadingLimit` | crates/bookforge-audio/src/text.rs:607-656 | The block loop computes the specified chunks: body runs flushed at titles and headings, heads under their own limit |
| `Chunking.ChunksRunByRun` | crates/bookforge-audio/src/text.rs:617-656 | The paragraphs up to the next title or heading are chunked as one text read with blank lines, as body chunks; then comes the title or heading as title or heading chunks, none if it is blank, itself if it fits, else its pieces; then the rest by itself |
| `Chunking.UnspacedSentenceIsExact` | crates/bookforge-audio/src/text.rs:664-679 | An unspaced sentence that is too long is cut into pieces that reproduce it exactly, since sentences are trimmed |
| `Chunking.FlushKeepsText` | crates/bookforge-audio/src/text.rs:617-630 | What a flush appends reads exactly as the gathered paragraphs |
| `Chunking.FlushWithinLimits` | crates/bookforge-audio/src/text.rs:617-630 | What a flush appends is non-empty and within the body limit, whatever the heading limit |
| `Chunking.HeadKeepsText` | crates/bookforge-audio/src/text.rs:635-651 | The chunks of a title or heading read exactly as it does, cut or not |
| `Chunking.UnspacedHeadIsExact` | crates/bookforge-audio/src/text.rs:641-651 | Those of an unspaced title or heading reproduce its trimmed text exactly |
| `Chunking.HeadWithinLimits` | crates/bookforge-audio/src/text.rs:635-651 | They are non-empty and within the heading limit |
| `Chunking.ChunksKeepTextWithinLimits` | crates/bookforge-audio/src/text.rs:607-698 | For every block list, every pair of limits and every script test: the chunks hold exactly the blocks' visible characters in order, and each is non-empty and within its kind's limit |
| `Chunking.LimitsAreIndependent` | crates/bookforge-audio/src/text.rs:607-656 | Body chunks depend on the body limit only, head chunks on the heading limit only |
| `Planning.ValidateOptions` | crates/bookforge-audio/src/builder.rs:1035-1066 | Options are accepted if and only if voice and synthesis identity are not blank, the limit exceeds the break tag and its space, concurrency is positive and the speed is from 0.25 to 4.0 |
| `BreakTags.AcceptedOptionsFit` | crates/bookforge-audio/src/builder.rs:1027-1066 | Accepted options never make a request longer than the limit, whatever the book |
| `BreakTags.RoomIsExact` | crates/bookforge-audio/src/builder.rs:1027-1056 | Every request of every book fits the limit if and only if the limit leaves room for a character beside the break tag and its space: validation asks for neither too much nor too little |
| `Planning.BuildPlan` | crates/bookforge-audio/src/builder.rs:312-386 | Both passes together, push and fill in, compute the specified plan, whose records the rows of `SynthesisIdentity` describe |
| `Planning.PushDrafts` | crates/bookforge-audio/src/builder.rs:334-353 | Each chunk of a chapter becomes one record, numbered from 1, with the break tag on titles and headings only |
| `Planning.CompleteOne` | crates/bookforge-audio/src/builder.rs:356-384 | Reading the neighbours from the list being filled in gives the same context as reading the untouched drafts |
| `Planning.CompleteInPlace` | crates/bookforge-audio/src/builder.rs:356-384 | Filling in context, hash and file name in place equals filling in each draft from its original neighbours |
| `Planning.CompletedAllIsPointwise` | crates/bookforge-audio/src/builder.rs:356-384 | The recursive form and the per-index form of filling in agree |
| `SynthesisIdentity.SynthesisIff` | crates/bookforge-audio/src/builder.rs:1069-1124 | Two planned chunks, of any books under any two option sets, have the same synthesis hash if and only if synthesis id, voice, format, speed, instructions, seed, language, normalization, request text, kind and both contexts are equal, for a digest without collisions |
| `SynthesisIdentity.OtherOptionsOtherIdentities` | crates/bookforge-audio/src/builder.rs:1094-1120 | If any of those options differs, no chunk of one plan has the hash of a chunk of the other |
| `SynthesisIdentity.FileIff` | crates/bookforge-audio/src/builder.rs:374-379 | If the sixteen digits shown already tell inputs apart, two planned chunks have the same file name if and only if they are the same part of the same chapter and ask for the same audio |
| `SynthesisIdentity.ContextIsLent` | crates/bookforge-audio/src/builder.rs:356-373 | Every record holds the last characters of the request before it and the first of the one behind it, as many as asked for and there are, and of its own chapter only |
| `SynthesisIdentity.RecordsAreChunks` | crates/bookforge-audio/src/builder.rs:334-353 | A chapter's chunks become its records in order, numbered from 1, with their kind and text, titles and headings with a space and the break tag behind them |
| `PlanProperties.PlanIsByChapter` | crates/bookforge-audio/src/builder.rs:312-386 | Context never crosses a chapter boundary: the plan is the chapters' own plans, one after the other |
| `PlanProperties.FilteredPlanIsRestriction` | crates/bookforge-audio/src/builder.rs:306-386 | A chapter-filtered plan is the full plan restricted to those chapters, record for record: context, hash and file name included |
| `PlanProperties.FileNameDetermines` | crates/bookforge-audio/src/builder.rs:374-379 | Equal file names mean equal chapter and part, whatever hashes and extensions |
| `PlanProperties.PlanFilesAreDistinct` | crates/bookforge-audio/src/builder.rs:312-386 | No two records of a plan share a file name |
| `PlanProperties.RequestsFit` | crates/bookforge-audio/src/builder.rs:312-353 | With that room each request, tag and separating space included, has 1 to `max_chars` characters |
| `PlanProperties.BreakTagKeepsBody` | crates/bookforge-audio/src/builder.rs:314-318 | Changing the break tag leaves a chapter's body chunks, as texts, as they are |
| `TagStability.ChapterKeptIff` | crates/bookforge-audio/src/builder.rs:314-384 | A chapter's body chunks all keep their cache identities under every accepted break tag if and only if there is no room for a tag, no neighbour context, or none of them follows a title or heading and each one before a title or heading is lent one character by it, or two with a space second |
| `TagStability.BodyChunkKeptIff` | crates/bookforge-audio/src/builder.rs:314-384 | The same of each body chunk by itself, matched across the plans by the body chunks before it |
| `TagStability.HeadedTextIsNotKept` | crates/bookforge-audio/src/builder.rs:356-373 | With context and room for a tag, no chapter in which a paragraph with text follows a title or heading keeps all of them |
| `TagStability.AmongBodies` | crates/bookforge-audio/src/builder.rs:356-373 | A body chunk between body chunks or chapter ends keeps its cache identity under every tag |
| `TagStability.BehindHead` | crates/bookforge-audio/src/builder.rs:314-373 | One directly behind a title or heading changes it under some accepted tag |
| `TagStability.BeforeHeadIff` | crates/bookforge-audio/src/builder.rs:356-373 | What a title or heading lends the chunk before it is the same under every accepted tag exactly when that is one character, or two and the untagged heading has a space in second place |
| `TagStability.RecordKeptIff` | crates/bookforge-audio/src/builder.rs:334-384 | A body chunk's whole record stays the same under another tag exactly when its cache identity does and the titles and headings before it are cut into as many chunks |
| `TagContext.KeysOfPlan` | crates/bookforge-audio/src/builder.rs:312-384 | The cache identities of the plan's body chunks, in order, are functions of the chapter's body chunks and untagged headings and of the tag |
| `FirstPieces.FirstCharacter` | crates/bookforge-audio/src/text.rs:840-888 | Under every limit the first piece of a title or heading begins with its first character |
| `FirstPieces.SpaceStaysSecond` | crates/bookforge-audio/src/text.rs:840-888 | A first piece with a space second under one limit has it under every smaller one, unless it is a single character |
| `BreakTags.BreakTagKeepsIdentities` | crates/bookforge-audio/src/builder.rs:314-318 | Without neighbour context all body chunks of a chapter keep their cache identities whatever the tag, even where it cuts a heading into more parts |
| `TagStability.TagChangesContext` | crates/bookforge-audio/src/builder.rs:356-373 | For instance, with neighbour context a tag on the heading H changes the cache identity of the paragraph behind it |
| `BreakTags.TagMovesParts` | crates/bookforge-audio/src/builder.rs:334-379 | A tag that cuts a heading in two gives the paragraph behind it another part number and file name |
| `Cleanup.FindStaleChunks` | crates/bookforge-audio/src/cleanup.rs:111-141 | The loop and its sort list exactly the debris and the managed chunks outside the plan, each once, ascending |
| `Cleanup.PlannedNameIsManaged` | crates/bookforge-audio/src/cleanup.rs:38-57 | Every name the planner makes from a hexadecimal hash is recognised as a managed chunk |
| `CleanupNames.ManagedIff` | crates/bookforge-audio/src/cleanup.rs:38-57 | A name is taken for a managed chunk if and only if it reads `chapter-<digits>-part-<digits>-<16 hexadecimal digits>.` and one of the six extensions, in capitals or not |
| `CleanupNames.DebrisIff` | crates/bookforge-audio/src/cleanup.rs:74-93 | A name is debris if and only if it has one of the six scratch shapes, in capitals or not, and is neither a lock nor the manifest |
| `Cleanup.PlannedNameIsNotDebris` | crates/bookforge-audio/src/cleanup.rs:74-93 | No planned name is debris or a lock, for every chapter, part, hash and format |
| `Cleanup.PruneIsSafe` | crates/bookforge-audio/src/cleanup.rs:111-141 | Pruning with the full plan lists no file that the full plan or any filtered plan uses, nor the manifest, nor the lock |
| `Cleanup.OutdatedChunkIsListed` | crates/bookforge-audio/src/cleanup.rs:111-141 | A managed chunk outside the plan is listed: nothing outdated stays behind for good |
| `Cleanup.SpecialNamesAreNotManaged` | crates/bookforge-audio/src/cleanup.rs:74-93 | Manifest and lock names are neither managed chunks nor debris |
| `StitchedNames.CollapseDashes` | crates/bookforge-audio/src/stitch.rs:1289-1300 | Replacing double dashes until there is none turns every run of dashes into one |
| `StitchedNames.SanitizeFilename` | crates/bookforge-audio/src/stitch.rs:1289-1314 | The steps together compute the specified file name |
| `TitleNames.SanitizedIsWords` | crates/bookforge-audio/src/stitch.rs:1289-1314 | A title with at least three ASCII letters or digits becomes its runs of them with single dashes between, any other one its fallback: at most forty characters, in lower case |
| `StitchedNames.StitchedFileIsListedIff` | crates/bookforge-audio/src/cleanup.rs:31-57 | A stitched chapter file is listed for pruning if and only if its title, made a file name, reads `part-<digits>-<16 hexadecimal digits>` and the plan has no chunk of that very name |
| `StitchedNames.PartTitleIsListed` | crates/bookforge-audio/src/cleanup.rs:34-37 | Every title made of the word part, up to 18 digits and 16 hexadecimal digits is such a title |
| `StitchedNames.StitchedNameDetermines` | crates/bookforge-audio/src/stitch.rs:404-415 | Stitched files of different chapters have different names, whatever their titles |
| `Chapters.ChaptersFromSections` | crates/bookforge-audio/src/text.rs:104-142 | Sections become chapters at their positions, the first heading with text becoming the title block |
| `Chapters.NarrateSection` | crates/bookforge-audio/src/text.rs:107-128 | The block loop drops furniture and empty blocks and marks the first heading only |
| `SectionReading.SectionBecomesChapter` | crates/bookforge-audio/src/text.rs:104-142 | A chapter keeps its section's place, trimmed title or numbered fallback, and exactly the blocks that are no furniture and not empty: the first heading among them as title, later ones at their level, the rest as paragraphs |
| `Chapters.CountOccurrences` | crates/bookforge-audio/src/text.rs:149-164 | The two counting loops count, for every text, the pages on which it occurs |
| `Chapters.ChaptersFromPdfPages` | crates/bookforge-audio/src/text.rs:144-265 | The page loop with its flags, flushes and cross-page join computes the specified grouping, described by the rows of `PdfReading` and `PdfPageBreaks` |
| `Chapters.PdfChaptersAreWellShaped` | crates/bookforge-audio/src/text.rs:144-265 | Chapter indices are positions, no chapter is empty, a title occurs only first, and every chapter after the first begins with a title equal to its own |
| `Chapters.JoinTwoTexts` | crates/bookforge-audio/src/text.rs:244-255 | Joining two neighbouring texts by a space does not change what is read out |
| `Chapters.PdfChaptersReadWhatIsKept` | crates/bookforge-audio/src/text.rs:177-265 | A join across a page break loses nothing and never crosses a chapter boundary: the chapters read out the texts that the flags of the scan keep, in order, cut before every label |
| `PdfReading.PdfChaptersReadOut` | crates/bookforge-audio/src/text.rs:149-265 | Over the blocks of all pages: a block is read out if and only if it is no furniture, not empty, no page number, no roman number while the printed contents are open, and a label, or no line of the contents and either they are not open and its text is on fewer than three pages, or it is front matter or stands behind a roman number and so closes them; the contents are open behind their last line, looked for until a chapter is closed, while nothing has been read out since. The chapters join exactly those texts, cut before each label |
| `PdfReading.RolesAreUnique` | crates/bookforge-audio/src/text.rs:177-265 | That rule gives every block one role: what a block is depends on the blocks before it alone |
| `PdfPageBreaks.PageAddsItsBlocks` | crates/bookforge-audio/src/text.rs:179-256 | Each page adds exactly the blocks read out of it, each as title, heading or paragraph; its first is joined to the last one before by a space if and only if both are paragraphs, the heuristic says so and no label is read out on that page |
| `PdfPageBreaks.FirstChapterIsTitled` | crates/bookforge-audio/src/text.rs:166-172 | The first chapter is called after its label, else after the book, else Front matter |
| `Manifest.BuildManifest.constructor` | crates/bookforge-audio/src/builder.rs:597-645 | A build starts from the bare plan, on disk as well |
| `Manifest.BuildManifest.UpdateChunkRecord` | crates/bookforge-audio/src/builder.rs:931-958 | Replaces one record; the counter stays the number of complete records whether the status goes up, down or stays |
| `Manifest.BuildManifest.Record` | crates/bookforge-audio/src/builder.rs:767-833 | Each kind of outcome writes its own status, hash, size and error |
| `Manifest.OutcomeIsNoted` | crates/bookforge-audio/src/builder.rs:781-846 | An outcome that reports adds one progress note with the next number, the announced total and how it ended; one that does not adds none |
| `Manifest.BuildManifest.RecordAndCheckpoint` | crates/bookforge-audio/src/builder.rs:788-846 | A failure is on disk at once, and the disk lacks fewer than sixteen records at any time |
| `Manifest.BuildManifest.CollectNext` | crates/bookforge-audio/src/builder.rs:765-848 | One finished task, at any place of any completion order, keeps records, counters, lists and progress those of the tasks seen |
| `Manifest.BuildManifest.Collect` | crates/bookforge-audio/src/builder.rs:753-892 | For every completion order: final records, counters, failures as a set, sorted files, status and checkpoint are functions of the outcomes alone |
| `Manifest.BuildManifest.Finish` | crates/bookforge-audio/src/builder.rs:865-879 | The files come out ascending, and the run fails exactly when some chunk failed |
| `Manifest.CountAfterUpdate` | crates/bookforge-audio/src/builder.rs:945-957 | How one record changes the number of complete records |
| `Manifest.CountsAddUp` | crates/bookforge-audio/src/builder.rs:881-887 | Synthesized, skipped and failed add up to the total |
| `Manifest.OrderDoesNotMatter` | crates/bookforge-audio/src/builder.rs:765-892 | Two completion orders of the same outcomes end with equal records and equal file lists |
| `Manifest.SelectedCount` | crates/bookforge-audio/src/builder.rs:574-590 | The chunks that report progress are as many as the retry selects |
| `Manifest.ProgressReachesTotal` | crates/bookforge-audio/src/builder.rs:574-595 | The number of progress notes reaches the announced total, for ordinary builds and for failed-only retries |
| `Sorting.Sort` | crates/bookforge-audio/src/builder.rs:865 | Sorting distinct names: ascending, the same elements, the same number |
| `Sorting.Insert` | crates/bookforge-audio/src/builder.rs:865 | Insertion keeps the list ascending |
| `Sorting.AscendingIsUnique` | crates/bookforge-audio/src/builder.rs:865 | There is only one ascending list of a set of names |
| `ResumableBuild.StepKeepsInv` | crates/bookforge-audio/src/builder.rs:597-967 | Every step of a build, a crash included, keeps: disk records describe the files on disk, memory and checkpoint agree or the checkpoint lags, finished tasks' audio is on disk |
| `ResumableBuild.WriteKeepsInv` | crates/bookforge-audio/src/builder.rs:737-739 | Writing a chunk's file falsifies no record, in memory, on disk or in the manifest found at the start |
| `ResumableBuild.HistoryKeepsInv` | crates/bookforge-audio/src/builder.rs:548-967 | The invariant holds after any number of builds, each stopped anywhere |
| `ResumableBuild.ManifestMatchesFiles` | crates/bookforge-audio/src/builder.rs:645-892 | In every history an audio hash in the manifest on disk is the hash of the file on disk, and its size the file's size |
| `ResumableBuild.OrdinaryBuildPaysOnlyForMissing` | crates/bookforge-audio/src/builder.rs:711-739 | An ordinary build calls the provider for a chunk exactly when its file is not there, else it reuses the file as it is |
| `ResumableBuild.OrdinaryBuildsNeverRepay` | crates/bookforge-audio/src/builder.rs:904-928 | No step of an ordinary build pays for or changes a chunk already written |
| `ResumableBuild.FirstAudioIsKept` | crates/bookforge-audio/src/builder.rs:711-739 | Over a whole history of ordinary builds the audio first written stays and no call for it follows |
| `ResumableBuild.FilesStay` | crates/bookforge-audio/src/builder.rs:737-739 | A chunk file once written stays, retries included |
| `ResumableBuild.RetryPaysOnlyForFailed` | crates/bookforge-audio/src/builder.rs:676-710 | A failed-only retry calls exactly for the chunks recorded as failed under the same hash, reuses the complete ones, refuses the rest |
| `BuildAccounts.FinishedBuildPaysOnce` | crates/bookforge-audio/src/builder.rs:597-892 | An ordinary build that runs to its end has called the provider exactly once for each planned chunk whose file was missing when it began, and for nothing else |
| `BuildAccounts.FinishedBuildAccounts` | crates/bookforge-audio/src/builder.rs:753-892 | It leaves a manifest in which every planned chunk is complete exactly if its file is on disk, with that file's hash and size, and failed otherwise |
| `RetryHistory.PayingTwiceNeedsTwoRetries` | crates/bookforge-audio/src/builder.rs:676-739 | In every history an ordinary build, and a retry whose manifest an ordinary build left, finished or stopped anywhere, call the provider only for chunks that are not on disk |
| `RetryHistory.HistoryKeepsLineage` | crates/bookforge-audio/src/builder.rs:597-892 | In an ordinary build and after it, wherever it stopped, no chunk recorded as failed is on disk |
| `RetryHistory.RetryCanRepay` | crates/bookforge-audio/src/builder.rs:676-710 | The second of two retries in a row can pay again: crash before the checkpoint, a retry that refuses the chunk and thereby records it as failed, a retry that calls for it |
| `OwnerRecord.ParseOwnerRecord` | crates/bookforge-audio/src/lock.rs:361-385 | The line loop over three variables computes the specified record |
| `OwnerRecord.RecordRoundTrip` | crates/bookforge-audio/src/lock.rs:415-417 | Reading back a whole record gives the pid, start time and nonce written |
| `OwnerRecord.TornRecord` | crates/bookforge-audio/src/lock.rs:361-385 | A record cut anywhere yields no nonce, or a prefix of it with pid and start time intact |
| `OwnerRecord.TornNeverMatchesAnother` | crates/bookforge-audio/src/lock.rs:361-417 | With nonces of one length a cut record carries a given nonce if and only if it is its own and wholly there |
| `Numbers.DecimalHasValue` | crates/bookforge-audio/src/lock.rs:415-417 | Decimal text has the value it was made from |
| `Numbers.ParseDecimal` | crates/bookforge-audio/src/lock.rs:366-379 | Parsing decimal text gives the number back, up to the integer type's maximum |
| `Numbers.PaddedIsInjective` | crates/bookforge-audio/src/builder.rs:374-379 | Zero-padded numbers of any length are different for different numbers |
| `Numbers.PaddedHasValue` | crates/bookforge-audio/src/builder.rs:374-379 | They keep their value and have three digits unless the number has more |
| `DirectoryLock.NextKeepsInv` | crates/bookforge-audio/src/lock.rs:284-300 | Every step of any owner, adopter or peeker, a crash inside a write included, keeps: the file is a prefix of the latest record, nonces are handed on only by adoption |
| `DirectoryLock.RunKeepsInv` | crates/bookforge-audio/src/lock.rs:443-539 | The invariant holds in every interleaving |
| `DirectoryLock.FoundNonceIsLatest` | crates/bookforge-audio/src/lock.rs:491-513 | The nonce an adopter finds is the latest writer's, wholly in the file |
| `DirectoryLock.AdoptionIsAddressed` | crates/bookforge-audio/src/lock.rs:471-521 | A child adopts only a nonce that a claim or handoff wrote in full, with no other owner's write since |
| `DirectoryLock.FailedAdoptionChangesNothing` | crates/bookforge-audio/src/lock.rs:471-521 | In every interleaving, wherever an adopter drops the lock or dies, read errors included: contents and history of the record are as it found them, unless it found its own nonce there and began to write |
| `DirectoryLock.RefusalNamesTheOwner` | crates/bookforge-audio/src/lock.rs:501-512 | An adopter that is told who holds the lock is told what the record said when it got the lock and still says, and that is not its own nonce |
| `DirectoryLock.SessionUnfolds` | crates/bookforge-audio/src/lock.rs:476-521 | What is true between each two steps of an adoption: read, compare, empty, write, fail |
| `DirectoryLock.PeekIdentifiesOwner` | crates/bookforge-audio/src/lock.rs:526-539 | A peeker that reads a pid and a nonce reads those of the latest write |
| `DirectoryLock.OwnerIsNamed` | crates/bookforge-audio/src/lock.rs:284-291 | Once a write has finished, the record names the holder under its nonce, whatever was there before |
| `DirectoryLock.SupersededNonceIsRefused` | crates/bookforge-audio/src/lock.rs:491-512 | A nonce that another owner has overwritten never opens the lock again |
| `LaunchSafety.SafeIffTimely` | crates/bookforge-cli/src/control.rs:606-623 | Renaming away, publishing an adoption or moving a claim aside is safe, in every careful continuation with any number of newcomers, if and only if no other process holds the claim and, for a removal, the file is absent or carries the remover's own nonce |
| `LaunchSafety.RunIsSafeIff` | crates/bookforge-cli/src/control.rs:715-922 | A run is safe all along if and only if no act in it came too late in that sense |
| `LaunchSafety.StepKeepsInvIff` | crates/bookforge-cli/src/control.rs:715-922 | A step keeps the invariant (holders are named in the file, parked claims are the parker's own, adopted handoffs are gone, givers have let go) if and only if it does not come too late |
| `LaunchSafety.RunKeepsInv` | crates/bookforge-cli/src/control.rs:715-922 | In every run the invariant holds until the first act that comes too late |
| `LaunchSafety.RunIsExclusive` | crates/bookforge-cli/src/control.rs:720-777 | In every run, until then, at most one live process holds the claim, and the file carries its nonce and pid |
| `LaunchClaim.DisciplineIsTimely` | crates/bookforge-cli/src/control.rs:750-763 | A process whose earlier reading still holds when it acts does not come too late |
| `LaunchSafety.LiveClaimIsLeftAlone` | crates/bookforge-cli/src/control.rs:559-599 | The claim of a live owner, held or handed off, is taken out of its place by another process's step if and only if that step acts on a reading that no longer holds or is the adoption the claim was handed off for |
| `LaunchSafety.HeldClaimIsLeftAlone` | crates/bookforge-cli/src/control.rs:559-599 | While the owner holds it, exactly when the step does not come too late |
| `LaunchSafety.ClaimStays` | crates/bookforge-cli/src/control.rs:606-623 | In every run a live process's claim stays, from its installation through the handoff, until the owner acts, the child adopts it, or some process acts on a reading that no longer holds |
| `LaunchSafety.HeartbeatWindow` | crates/bookforge-cli/src/control.rs:443-464 | Between a heartbeat's verifying and publishing another's step lets it overwrite a rival's live claim if and only if that step comes too late: the heartbeat opens no window of its own, and is exposed to the others' |
| `LaunchSafety.HeartbeatReplacesOwnClaim` | crates/bookforge-cli/src/control.rs:451-464 | In every run a heartbeat replaces its own claim and changes its time only, unless something came too late before |
| `LaunchCallers.CallersAreExclusive` | crates/bookforge-cli/src/commands/retry.rs:291-401 | As the callers use the claim (a parent removes one only when the children it spawned under it are gone, and hands off only what it installed), with each check and its act one act: in every state of every run at most one live process holds it, and the file names it |
| `LaunchCallers.CallersTakeNothingBack` | crates/bookforge-cli/src/commands/retry.rs:311-401 | No run of these callers with each pair one act removes a claim that a live child has adopted |
| `LaunchCallers.RunTracesClaims` | crates/bookforge-cli/src/control.rs:789-861 | In every run of these callers a process has a claim only under a nonce that it installed or that it adopted from the parent that spawned it under it, which had installed it |
| `LaunchSafety.AdoptedFromFileOnce` | crates/bookforge-cli/src/control.rs:789-831 | With any number of children, and until something comes too late, only one adopts it from a file that still shows it |
| `LaunchCallers.HandoffIsAdoptedOnce` | crates/bookforge-cli/src/commands/retry.rs:514-550 | With one child to a handoff no handoff is adopted twice, in any run, whatever comes too late |
| `LaunchPrompt.PromptRunIsSafeIff` | crates/bookforge-cli/src/control.rs:864-897 | Whatever the callers: with reading, judging and renaming, verifying and adopting, moving aside and settling each one act, a run is safe all along if and only if no process removed a claim that another live process held under the same nonce |
| `LaunchPrompt.PromptRunIsExclusive` | crates/bookforge-cli/src/control.rs:703-706 | Such a run has one live holder at most, unless a process did so |
| `LaunchPrompt.PromptKeepsCore` | crates/bookforge-cli/src/control.rs:715-922 | What is true between the acts of such a run |
| `LaunchPrompt.PromptActIsDisciplined` | crates/bookforge-cli/src/control.rs:750-763 | A reclaim or an adoption that follows its reading at once is disciplined |
| `LaunchPrompt.ForeignClaimReturns` | crates/bookforge-cli/src/control.rs:878-896 | Moving aside and settling at once leaves a foreign claim where it was |
| `LaunchPrompt.TakingBackIsUnsafe` | crates/bookforge-cli/src/control.rs:884-889 | Removing a live child's adopted claim lets a newcomer install a second one at once |
| `LaunchRaces.RaceIsARun` | crates/bookforge-cli/src/control.rs:715-922 | Each race below is a run from an initial state, disciplined at every step but its one late act |
| `LaunchRaces.ReclaimRace` | crates/bookforge-cli/src/control.rs:610-623 | There is a run in which two reclaimers of one dead claim both win |
| `LaunchRaces.HeartbeatRace` | crates/bookforge-cli/src/control.rs:451-464 | There is a run in which the same late rename makes a heartbeat overwrite the claim of the process that installed its own in between |
| `LaunchRaces.AdoptionRace` | crates/bookforge-cli/src/control.rs:789-831 | There is a run in which a child publishes over a claim installed since it verified |
| `LaunchRaces.LateRemovalRace` | crates/bookforge-cli/src/control.rs:864-922 | There is a run in which a cleared claim is dropped later: the drop moves a live claim aside and its rename back overwrites a newer one |
| `LaunchRaces.ParkedClaimRace` | crates/bookforge-cli/src/control.rs:878-897 | There is one with no holder at all and the child gone: a dead foreign claim is moved aside and comes back over a live one, and is then reclaimed |
| `LaunchRaces.TakenBackRun` | crates/bookforge-cli/src/control.rs:864-897 | The removal alone does not exclude it: there is a run, of no caller here, in which every act follows its reading at once and a parent that does not wait clears the claim its live child has adopted |
| `LaunchRaces.AdoptedTwice` | crates/bookforge-cli/src/control.rs:803-831 | Two children to one handoff, which no caller here has, could both adopt it: the second after the first has died, no rival holding the claim |
| `EventLines.LinesAreTheStream` | crates/bookforge-cli/src/eventlog.rs:105-151 | The batch reading is the right one: its lines, each closed by a newline, and its tail are the stream |
| `EventLines.LinesOfPieces` | crates/bookforge-cli/src/eventlog.rs:105-151 | Reading a stream in two pieces, carrying the tail, gives the lines of the whole |
| `EventLines.EventsOfPieces` | crates/bookforge-cli/src/eventlog.rs:122-136 | Events and skip counts of two line lists add up |
| `EventLines.NewEventsAreOfLines` | crates/bookforge-cli/src/eventlog.rs:105-136 | The batch reading of the bytes behind any prefix gives one event for each line whose newline is among them, that is not empty, within the limit and parses, in order, and nothing else; lines are the stretches of the stream between newlines |
| `EventLines.SkipsAreCorrupt` | crates/bookforge-cli/src/eventlog.rs:122-136 | It counts exactly the lines that are not empty, within the limit, do not parse and hold more than whitespace |
| `EventLog.EventLogTailer.constructor` | crates/bookforge-cli/src/eventlog.rs:50-58 | A new tailer has polled nothing |
| `EventLog.EventLogTailer.BufferIsBounded` | crates/bookforge-cli/src/eventlog.rs:105-151 | The buffer never exceeds the line limit and never holds a newline |
| `EventLog.EventLogTailer.ConsumeBytes` | crates/bookforge-cli/src/eventlog.rs:105-151 | Whatever the read, events and skip count are those of the batch reading of all bytes so far |
| `EventLog.EventLogTailer.ConsumeLine` | crates/bookforge-cli/src/eventlog.rs:106-150 | One turn of the loop: bytes up to the next newline, or all of them |
| `EventLog.EventLogTailer.TakePartial` | crates/bookforge-cli/src/eventlog.rs:107-149 | An unterminated piece is kept, or starts discarding its line when it exceeds the limit |
| `EventLog.EventLogTailer.TakeLine` | crates/bookforge-cli/src/eventlog.rs:107-139 | A completed line gives its parsed event once if it is not empty, within the limit and parses, else none |
| `EventLog.EventLogTailer.Drain` | crates/bookforge-cli/src/eventlog.rs:87-102 | For any outcomes of the reads: a drain takes their bytes up to the end of the log, the budget or the failed read, says whether one failed, and parses what it took |
| `EventLog.EventLogTailer.Poll` | crates/bookforge-cli/src/eventlog.rs:67-103 | Over any sequence of polls and read outcomes, what a poll returns, consumes and counts is a function of them: a poll that returns events returns those of exactly the lines its bytes complete, and the count is that of the corrupt lines of the log so far |
| `EventLog.TakenUpToStop` | crates/bookforge-cli/src/eventlog.rs:87-102 | A poll takes the bytes of its reads up to the budget, the end of the log or a read that fails, and fails exactly in the last case |
| `EventLog.ConsumedIsRead` | crates/bookforge-cli/src/eventlog.rs:67-102 | The log is open once a poll has opened it, and the polls since have consumed exactly the bytes of their reads, in order |
| `EventLog.DeliveredAreOfLines` | crates/bookforge-cli/src/eventlog.rs:67-136 | Over any polls of which no read fails, the returned events are, one each and in order, those of all lines of the log that are not empty, within the limit and parse |
| `EventLog.PollKeepsUp` | crates/bookforge-cli/src/eventlog.rs:89-101 | One poll returns all the events of the lines it completes, or none of them and at least one is lost, exactly when a read fails after earlier reads of the poll completed a line that parses |
| `EventLog.DeliveredIffNoneLost` | crates/bookforge-cli/src/eventlog.rs:67-103 | Over any sequence of polls the returned events are those of the batch reading of all bytes taken if and only if no poll does that |
| `EventLog.TwoReadsLoseAnEvent` | crates/bookforge-cli/src/eventlog.rs:89-101 | Two reads, a line that parses and then a failure, lose its event for good, whatever later polls bring |
| `Paragraphs.Extractor.Walk` | scripts/epub_quality_audit.py:94-132 | The recursive walk with its three mutated variables appends exactly the specified paragraphs |
| `Paragraphs.BlockWalk.constructor` | scripts/epub_quality_audit.py:97-99 | A block starts with no pieces, fragment 0 and no boundary |
| `Paragraphs.FlushGathers` | scripts/epub_quality_audit.py:101-109 | A flush moves text from the pieces to the paragraphs and loses none of it |
| `Paragraphs.BlockWalk.Content` | scripts/epub_quality_audit.py:111-129 | An element's text, its children and all their tails are taken in document order |
| `Paragraphs.ChildGathers` | scripts/epub_quality_audit.py:115-129 | Whatever kind a child is, exactly its visible text is added to what has been gathered |
| `Paragraphs.ExtractParagraphs` | scripts/epub_quality_audit.py:83-134 | The first body, or the root, is walked from the location `body`, with the paragraphs that `ExtractedFrom` and the rows of `ParagraphPlaces` describe |
| `Paragraphs.ParagraphsAreTheVisibleText` | scripts/epub_quality_audit.py:83-134 | Up to whitespace, the paragraphs in order are the document's visible text, tails of hidden and block children included, for every tree |
| `ParagraphStretches.BlockIsItsStretches` | scripts/epub_quality_audit.py:101-132 | The visible text of a block between two neighbouring block boundaries, normalized, is one paragraph or is blank; its number is how many blocks inside stand before it, and the paragraphs of each of these stand in its place; a leaf block without blocks inside has its paragraph even if that is empty |
| `ParagraphStretches.ExtractedFrom` | scripts/epub_quality_audit.py:84-85 | The paragraphs of a document are those of its first body in document order, or of the root when it has none, under the path body |
| `ParagraphPlaces.DeletingKeepsLocations` | scripts/epub_quality_audit.py:101-109 | Of two documents of one shape, if the second shows text wherever the first does, the first's locations are a subsequence of the second's: empty fragments count, so what is deleted shifts nothing |
| `ParagraphPlaces.RunsKeepLocations` | scripts/epub_quality_audit.py:101-129 | A character that stands in the same runs of text in two documents of one shape is found at the same locations in both, whatever the rest of their texts |
| `ParagraphKeys.SiblingsAreApart` | scripts/epub_quality_audit.py:114-116 | No location lies below two children of one element |
| `ParagraphKeys.WalkKeys` | scripts/epub_quality_audit.py:94-132 | Every walk appends paragraphs with distinct locations, all at or below its own path |
| `ParagraphKeys.JoinKeys` | scripts/epub_quality_audit.py:111-129 | A child's locations and those of the children after it have none in common, fragments included |
| `ParagraphKeys.KeysAreDistinct` | scripts/epub_quality_audit.py:78-134 | All location keys of a document are distinct, whatever the tree |
| `Passages.SegmentIds` | crates/bookforge-cli/examples/judge_translation.rs:430-435 | The segment list names each stretch of blocks of one segment once, in order |
| `Passages.SegmentIdsAreUnique` | crates/bookforge-cli/examples/judge_translation.rs:430-435 | Only one list does so, and it has no equal neighbours |
| `Passages.PushPassage` | crates/bookforge-cli/examples/judge_translation.rs:412-456 | Appends the passage that the blocks make, every field of it, and nothing when there are none |
| `Passages.IdentityIff` | crates/bookforge-cli/examples/judge_translation.rs:458-471 | Two passages have the same identity if and only if job, section, block ids and source text are equal: another translation of the same blocks keeps it |
| `Passages.AssemblePassages` | crates/bookforge-cli/examples/judge_translation.rs:384-410 | The greedy loop cuts the blocks, in order, into runs of one section within the budget, and only where it must |
| `Passages.TestsAreExact` | crates/bookforge-cli/examples/judge_translation.rs:389-402 | The loop's two tests are exactly whether the run, made longer by one block, may still be one passage |
| `Passages.RunIsOneSection` | crates/bookforge-cli/examples/judge_translation.rs:394-398 | All blocks of a run share job and section, at consecutive positions |
| `Passages.PassagesAreFewest` | crates/bookforge-cli/examples/judge_translation.rs:384-410 | No cutting into runs within the budget has fewer passages |
| `Passages.PassagesPartitionBlocks` | crates/bookforge-cli/examples/judge_translation.rs:384-456 | The passages' block ids, character counts and joined texts, put together again, are those of all blocks |
| `Sampling.OutputIsReversible` | crates/bookforge-cli/examples/judge_translation.rs:770-780 | The mixing of the generator is a bijection: every 64-bit value is the output of exactly one state |
| `Sampling.Shuffle` | crates/bookforge-cli/examples/judge_translation.rs:753-758 | The in-place exchanges compute the specified shuffle of the seed's draws |
| `Sampling.SamplePassages` | crates/bookforge-cli/examples/judge_translation.rs:752-766 | The sample has the requested size and takes the passages at the first positions of an order of all indices, each index once |
| `Sampling.DrawsFollowSeed` | crates/bookforge-cli/examples/judge_translation.rs:753-780 | The draws follow the seed: the state starts at it, grows by the constant with every position from the last down, and each draw is the mixed state modulo the positions left |
| `Sampling.ShuffleIsOrder` | crates/bookforge-cli/examples/judge_translation.rs:754-758 | Shuffling only reorders: every index exactly once |
| `Sampling.ShuffleIsInjective` | crates/bookforge-cli/examples/judge_translation.rs:754-758 | Different draws give different orders |
| `Sampling.EveryOrderIsDrawn` | crates/bookforge-cli/examples/judge_translation.rs:754-758 | Every order comes from some draws; with injectivity, uniform draws favour no order |
| `Sampling.SampleHasNoDuplicates` | crates/bookforge-cli/examples/judge_translation.rs:759-765 | A sample names as many different passages as its size |
| `StderrTail.BoundedStderrTail` | crates/bookforge-audio/src/stitch.rs:1069-1094 | For any read sizes the tail is the last min(total, limit) bytes up to the stream's end and the flag says whether any were dropped; a failed read is passed on |
| `StderrTail.LastOfLast` | crates/bookforge-audio/src/stitch.rs:1083-1091 | The tail of an extended tail is the tail of the extended stream |
| `Stitch.PrepareSilenceFiles` | crates/bookforge-audio/src/stitch.rs:457-495 | One silence file per distinct non-zero gap, a gap chosen exactly when its length is not zero; an error stops at the first that cannot be made |
| `Stitch.BuildBookConcatEntries` | crates/bookforge-audio/src/stitch.rs:538-549 | The list is the chapter files with the gap between neighbours and not behind the last |
| `Stitch.BookAlternates` | crates/bookforge-audio/src/stitch.rs:538-549 | Entry by entry: the chapter files alone, or with the gap at every odd place and none behind the last |
| `Stitch.StartIsSum` | crates/bookforge-audio/src/stitch.rs:629-651 | A chapter starts after the summed durations of those before it and as many gaps |
| `Stitch.ChapterStartsAtItsMarker` | crates/bookforge-audio/src/stitch.rs:538-549 | The entries listed before a chapter's file play for exactly the time at which its marker starts |
| `Stitch.LastChapterEndsTheBook` | crates/bookforge-audio/src/stitch.rs:538-549 | The whole list plays until the last chapter's end |
| `ChapterMarkers.EscapeFfmeta` | crates/bookforge-audio/src/stitch.rs:1274-1287 | The character loop computes the specified escape |
| `ChapterMarkers.EscapedReadsBack` | crates/bookforge-audio/src/stitch.rs:1274-1287 | An escaped value is one line and unescapes to the value with its line breaks as spaces |
| `ChapterMarkers.BuildFfmetadata` | crates/bookforge-audio/src/stitch.rs:1250-1272 | The running start and the pushed strings produce exactly the header and marker lines |
| `ChapterMarkers.MetadataReadsBack` | crates/bookforge-audio/src/stitch.rs:1250-1287 | Whatever the titles hold, the file reads back as those lines, with as many chapter sections as chapters |
| `ChapterMarkers.DescribeBook` | crates/bookforge-audio/src/stitch.rs:629-651 | In the file as read back, each marker's START is the summed duration of the entries before its chapter's file and END is START plus its duration |

## Left out

- HTTP providers, retries and back-off, ffmpeg and ffprobe processes, EPUB, ZIP and XML reading, JSON, async scheduling: what they deliver is a parameter or a nondeterministic step.
- SHA-256 and the random nonces: a hash is an arbitrary function of its inputs, a nonce is fresh and of fixed length. Equal hashes of different audio are not excluded and not needed.
- Character classes that are Unicode tables: `is_alphanumeric` and `is_space_delimited` are arbitrary predicates; only `is_whitespace` is written out, and the paragraph law asks that no whitespace be alphanumeric.
- Table-of-contents, front-matter, page-furniture and chapter-label heuristics, marker stripping and block cleaning in front of the PDF grouping and the sections: arbitrary functions (`Heuristics`), so the results hold for any of them.
- Which sections of an EPUB are narratable (crates/bookforge-audio/src/text.rs:65-109): the section list is the input.
- NFC normalization and entity handling in the audit script, and the alignment of two books by sequence matching.
- Machine-integer overflow of lengths, counters and millisecond sums; saturation is modelled only in the error tail. File-system paths: files are named, directories are not part of the names.
- Sampling.SamplePassages: the remainder of a 64-bit draw by the number of positions is slightly uneven; the proofs are about draws, not about their distribution.
- SentenceCuts.NoCutBehindShortForm: asks that terminators, closing marks and whitespace be no letters or digits, which holds in Unicode.
- SynthesisIdentity.SynthesisIff: an option that is not given and one that is the empty text have the same identity, as in the source, so they are one value here.
- Paragraphs.ParagraphsAreTheVisibleText: text is compared up to whitespace, because the walk normalizes it.
- ParagraphKeys.KeysAreDistinct: asks that local names contain none of `/`, `[` and `#`, which XML names cannot.
- TagStability.ChapterKeptIff: asks for a digest without collisions, on the full hash; a file name carries its first 16 digits.
- Cleanup.FindStaleChunks: entries are values and the listing cannot fail; the directory read, the deletion and its byte count are outside.
- StderrTail.BoundedStderrTail: one read delivers less than the machine's address space; the source's buffer is 4096 bytes.
- Manifest.BuildManifest.Collect: without cancellation and without a task that panics; a checkpoint that cannot be written ends the run and is a `Stop` in `ResumableBuild`.
- ResumableBuild.HistoryKeepsInv: no task writes after its build has stopped and nothing is pruned between builds; the plans of different builds may differ.
- DirectoryLock.RunKeepsInv: the kernel lock is exclusive and released on death; the state is a value and not a class, because several processes act on it. How long an adopter waits is left out; that it gives up is a step.
- LaunchSafety.RunIsExclusive: exclusive creation and rename are atomic; "gone" is only reported of dead processes; a pid is not reused, so a reused pid only makes a dead owner look alive. The claim is a value and not a class, because several processes act on it. The two reads of an adoption are one verifying step, the environment always names the parent's pid (as `handoff_to_child_env` makes it), the legacy one-line format and `created_at_ms` are not represented, a claim without a readable owner is one value, and a process has one claim handle at a time.
- LaunchCallers.CallersAreExclusive: a wait for a child that fails although the child lives (crates/bookforge-cli/src/commands/retry.rs:595-600) is taken not to happen.
- EventLog.EventLogTailer.Poll: what the reads deliver is an input, so where the bytes lie in the file is not modelled, and a JSON parser is an arbitrary partial function.
- Planning.BuildPlan: the speed enters validation as a real number (not-a-number is excluded) and the hash as text.
- Quoting in the ffmpeg concat list, encoder arguments, loudness normalization and the publication of staged files: easy or process plumbing.
- Control-file polling, epochs, presentation, dashboards, pricing, entity and finding folds: not part of this model.
