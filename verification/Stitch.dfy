/** Book assembly: the gap files, the order the chapters play in, and when each of them starts
    (crates/bookforge-audio/src/stitch.rs:457-549, 629-651). */
module Stitch {
  import opened Options

  // ----- the gap files -----

  datatype ConcatGaps = ConcatGaps(chapter: Option<string>, title: Option<string>, paragraph: Option<string>)

  /** The lengths for which a silence file is needed: not zero, and each once. */
  function NeededGaps(lengths: seq<nat>): seq<nat> {
    if lengths == [] then []
    else
      var before := NeededGaps(lengths[..|lengths| - 1]);
      var last := lengths[|lengths| - 1];
      if last == 0 || last in before then before else before + [last]
  }

  lemma {:induction false} NeededMembers(lengths: seq<nat>)
    ensures forall ms :: ms in NeededGaps(lengths) <==> ms != 0 && ms in lengths
  {
    if lengths != [] {
      var front, last := lengths[..|lengths| - 1], lengths[|lengths| - 1];
      NeededMembers(front);
      assert lengths == front + [last];
    }
  }

  /** Each needed length once. */
  lemma {:induction false} NeededOnce(lengths: seq<nat>)
    ensures forall i, j | 0 <= i < j < |NeededGaps(lengths)| :: NeededGaps(lengths)[i] != NeededGaps(lengths)[j]
  {
    if lengths != [] {
      NeededOnce(lengths[..|lengths| - 1]);
    }
  }

  type MakeSilence = nat -> Result<string, string>

  /** Every one of `lengths` that is needed has its file, and they were made in order. */
  ghost predicate Made(generated: seq<string>, cache: map<nat, string>, lengths: seq<nat>, make: MakeSilence) {
    && |generated| == |NeededGaps(lengths)|
    && (forall k | 0 <= k < |generated| :: make(NeededGaps(lengths)[k]) == Ok(generated[k]))
    && (forall ms :: ms in cache <==> ms in NeededGaps(lengths))
    && (forall ms | ms in cache :: make(ms) == Ok(cache[ms]))
  }

  function Get(cache: map<nat, string>, ms: nat): Option<string> {
    if ms in cache then Some(cache[ms]) else None
  }

  function GapFor(ms: nat, make: MakeSilence): Option<string> {
    if ms == 0 || make(ms).Err? then None else Some(make(ms).value)
  }

  /** One silence file per distinct gap length, none for a gap of zero; an error stops at the first
      length that cannot be made, with the files made so far handed back for clean-up. */
  method PrepareSilenceFiles(chapterMs: nat, titleMs: nat, paragraphMs: nat, make: MakeSilence)
    returns (r: Result<ConcatGaps, string>, generated: seq<string>)
    ensures r.Ok? <==> forall ms | ms in [chapterMs, titleMs, paragraphMs] && ms != 0 :: make(ms).Ok?
    ensures r.Ok? ==>
      && r.value == ConcatGaps(GapFor(chapterMs, make), GapFor(titleMs, make), GapFor(paragraphMs, make))
      && |generated| == |NeededGaps([chapterMs, titleMs, paragraphMs])|
    ensures r.Err? ==> exists ms :: ms in [chapterMs, titleMs, paragraphMs] && ms != 0 && make(ms) == Err(r.error)
    ensures |generated| <= |NeededGaps([chapterMs, titleMs, paragraphMs])|
    ensures forall k | 0 <= k < |generated| :: make(NeededGaps([chapterMs, titleMs, paragraphMs])[k]) == Ok(generated[k])
  {
    var lengths := [chapterMs, titleMs, paragraphMs];
    var cache: map<nat, string> := map[];
    generated := [];
    NeededMembers(lengths);
    for k: nat := 0 to |lengths|
      invariant Made(generated, cache, lengths[..k], make)
    {
      var ms := lengths[k];
      assert lengths[..k + 1][..k] == lengths[..k];
      NeededPrefix(lengths, k);
      NeededPrefix(lengths, k + 1);
      if ms == 0 || ms in cache {
        continue;
      }
      var path := make(ms);
      if path.Err? {
        return Err(path.error), generated;
      }
      generated := generated + [path.value];
      cache := cache[ms := path.value];
    }
    assert lengths[..3] == lengths;
    assert chapterMs in lengths && titleMs in lengths && paragraphMs in lengths;
    r := Ok(ConcatGaps(Get(cache, chapterMs), Get(cache, titleMs), Get(cache, paragraphMs)));
  }

  lemma {:induction false} NeededPrefix(lengths: seq<nat>, k: nat)
    requires k <= |lengths|
    ensures NeededGaps(lengths[..k]) <= NeededGaps(lengths)
    decreases |lengths|
  {
    if k == |lengths| {
      assert lengths[..k] == lengths;
    } else {
      var front := lengths[..|lengths| - 1];
      NeededPrefix(front, k);
      assert front[..k] == lengths[..k];
    }
  }

  // ----- the play order of the book -----

  /** What is listed before chapter `k`: every earlier chapter, each followed by the gap. */
  function EntriesBefore(files: seq<string>, gap: Option<string>, k: nat): seq<string>
    requires k <= |files|
  {
    if k == 0 then []
    else EntriesBefore(files, gap, k - 1) + [files[k - 1]] + (if gap.Some? && k < |files| then [gap.value] else [])
  }

  method BuildBookConcatEntries(files: seq<string>, gap: Option<string>) returns (entries: seq<string>)
    ensures entries == EntriesBefore(files, gap, |files|)
  {
    entries := [];
    for index := 0 to |files|
      invariant entries == EntriesBefore(files, gap, index)
    {
      entries := entries + [files[index]];
      if index + 1 < |files| && gap.Some? {
        entries := entries + [gap.value];
      }
    }
  }

  function TotalLength(entries: seq<string>, lengthOf: string -> nat): nat {
    if entries == [] then 0 else TotalLength(entries[..|entries| - 1], lengthOf) + lengthOf(entries[|entries| - 1])
  }

  // ----- the chapter markers -----

  /** Milliseconds played before chapter `k` begins. */
  function PlayedBefore(durations: seq<nat>, gapMs: nat, k: nat): nat
    requires k <= |durations|
  {
    if k == 0 then 0 else PlayedBefore(durations, gapMs, k - 1) + durations[k - 1] + gapMs
  }

  /** The play order and the markers agree: chapter `k` is listed right after entries that play for
      exactly the time at which its marker starts. */
  lemma {:induction false} ChapterStartsAtItsMarker(files: seq<string>, gap: Option<string>, durations: seq<nat>, gapMs: nat,
                                 lengthOf: string -> nat, k: nat)
    requires |files| == |durations| && k < |files|
    requires forall i | 0 <= i < |files| :: lengthOf(files[i]) == durations[i]
    requires if gap.Some? then lengthOf(gap.value) == gapMs else gapMs == 0
    ensures EntriesBefore(files, gap, k) + [files[k]] <= EntriesBefore(files, gap, |files|)
    ensures TotalLength(EntriesBefore(files, gap, k), lengthOf) == PlayedBefore(durations, gapMs, k)
  {
    EntriesArePrefix(files, gap, k + 1, |files|);
    if k > 0 {
      ChapterStartsAtItsMarker(files, gap, durations, gapMs, lengthOf, k - 1);
      var entries := EntriesBefore(files, gap, k - 1);
      var withChapter := entries + [files[k - 1]];
      assert withChapter[..|withChapter| - 1] == entries;
      if gap.Some? {
        assert (withChapter + [gap.value])[..|withChapter|] == withChapter;
      } else {
        assert withChapter + [] == withChapter;
      }
    }
  }

  lemma {:induction false} EntriesArePrefix(files: seq<string>, gap: Option<string>, k: nat, n: nat)
    requires k <= n <= |files|
    ensures EntriesBefore(files, gap, k) <= EntriesBefore(files, gap, n)
  {
    if k < n {
      EntriesArePrefix(files, gap, k, n - 1);
    }
  }

  /** The play order, entry by entry: the chapters alone, or the chapters with the gap between any two of them. */
  lemma {:induction false} BookAlternates(files: seq<string>, gap: Option<string>, n: nat)
    requires n <= |files|
    ensures gap.None? ==> EntriesBefore(files, gap, n) == files[..n]
    ensures gap.Some? ==>
      && |EntriesBefore(files, gap, n)| == (if n == |files| && n > 0 then 2 * n - 1 else 2 * n)
      && (forall k | 0 <= k < n :: EntriesBefore(files, gap, n)[2 * k] == files[k])
      && (forall k | 0 <= k < n && k + 1 < |files| :: EntriesBefore(files, gap, n)[2 * k + 1] == gap.value)
  {
    if n > 0 {
      BookAlternates(files, gap, n - 1);
    }
  }

  function Sum(numbers: seq<nat>): nat {
    if numbers == [] then 0 else Sum(numbers[..|numbers| - 1]) + numbers[|numbers| - 1]
  }

  /** A chapter starts after the chapters before it and as many gaps. */
  lemma {:induction false} StartIsSum(durations: seq<nat>, gapMs: nat, k: nat)
    requires k <= |durations|
    ensures PlayedBefore(durations, gapMs, k) == Sum(durations[..k]) + k * gapMs
  {
    if k > 0 {
      StartIsSum(durations, gapMs, k - 1);
      assert durations[..k][..k - 1] == durations[..k - 1];
      assert k * gapMs == (k - 1) * gapMs + gapMs;
    }
  }

  /** With the last chapter the whole list has been played. */
  lemma LastChapterEndsTheBook(files: seq<string>, gap: Option<string>, durations: seq<nat>, gapMs: nat, lengthOf: string -> nat)
    requires |files| == |durations| && files != []
    requires forall i | 0 <= i < |files| :: lengthOf(files[i]) == durations[i]
    requires if gap.Some? then lengthOf(gap.value) == gapMs else gapMs == 0
    ensures TotalLength(EntriesBefore(files, gap, |files|), lengthOf)
         == PlayedBefore(durations, gapMs, |files| - 1) + durations[|files| - 1]
  {
    ChapterStartsAtItsMarker(files, gap, durations, gapMs, lengthOf, |files| - 1);
    var entries := EntriesBefore(files, gap, |files| - 1);
    var all := EntriesBefore(files, gap, |files|);
    assert all == entries + [files[|files| - 1]];
    assert all[..|all| - 1] == entries;
  }
}
