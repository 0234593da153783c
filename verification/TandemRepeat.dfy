/** The skip-ahead search for the strongest tandem repeat in a paragraph's words
    (scripts/epub_quality_audit.py:184-198). */
module TandemRepeat {
  import opened Options
  import opened Strings

  datatype Repeat = Repeat(phrase: string, repeats: nat, excess: nat)

  // ----- what a tandem repeat is -----

  /** The `len` words from `start` on each recur `width` places further. */
  ghost predicate Periodic(words: seq<string>, start: nat, width: nat, len: int) {
    && start + width + len <= |words|
    && forall d | start <= d < start + len :: words[d] == words[d + width]
  }

  /** `times` equal runs of `width` words, one after the other, from `start` on (see TandemIsCopies). */
  ghost predicate TandemAt(words: seq<string>, start: nat, width: nat, times: nat) {
    times >= 1 && Periodic(words, start, width, Excess(width, times))
  }

  function WidthLimit(n: nat): nat {
    if n / 2 < 12 then n / 2 else 12
  }

  /** The words that `times` runs of `width` cover: their product, kept recursive so that proofs stay linear. */
  function Span(width: nat, times: nat): nat {
    if times == 0 then 0 else Span(width, times - 1) + width
  }

  function Excess(width: nat, repeats: nat): nat {
    if repeats == 0 then 0 else Span(width, repeats - 1)
  }

  predicate MeetsThresholds(width: nat, repeats: nat) {
    (repeats >= 3 || (width >= 4 && repeats >= 2)) && Span(width, repeats) >= 6
  }

  lemma {:induction false} SpanIsProduct(width: nat, times: nat)
    ensures Span(width, times) == width * times
  {
    if times > 0 {
      SpanIsProduct(width, times - 1);
    }
  }

  lemma {:induction false} SpanGrows(width: nat, fewer: nat, more: nat)
    requires fewer <= more
    ensures Span(width, fewer) <= Span(width, more)
    ensures fewer < more ==> Span(width, fewer) + width <= Span(width, more)
    decreases more
  {
    if fewer < more {
      SpanGrows(width, fewer, more - 1);
    }
  }

  ghost predicate Candidate(words: seq<string>, start: nat, width: nat, repeats: nat) {
    && 1 <= width <= WidthLimit(|words|)
    && TandemAt(words, start, width, repeats)
    && MeetsThresholds(width, repeats)
  }

  /** `best` reports the candidate that starts at `start` with that `width`. */
  ghost predicate Reports(words: seq<string>, best: Repeat, start: nat, width: nat) {
    && Candidate(words, start, width, best.repeats)
    && best.phrase == JoinWith(words[start..start + width], " ")
    && best.excess == Excess(width, best.repeats)
  }

  /** No candidate is stronger, and none as strong comes earlier (narrower first, then leftmost). */
  ghost predicate Strongest(words: seq<string>, best: Repeat, start: nat, width: nat) {
    forall s: nat, w: nat, r: nat | Candidate(words, s, w, r) ::
      && Excess(w, r) <= best.excess
      && (Excess(w, r) == best.excess ==> width < w || (width == w && start <= s))
  }

  // ----- the definition says what it should -----

  function Copies(phrase: seq<string>, times: nat): (r: seq<string>)
    ensures times > 0 ==> |r| >= |phrase|
  {
    if times == 0 then [] else phrase + Copies(phrase, times - 1)
  }

  /** `copies` is what `words` holds from `start` on. */
  ghost predicate OccursAt(words: seq<string>, start: nat, copies: seq<string>) {
    start + |copies| <= |words| && words[start..start + |copies|] == copies
  }

  /** A tandem repeat is its first `width` words written `times` times over. */
  lemma {:induction false} TandemIsCopies(words: seq<string>, start: nat, width: nat, times: nat)
    requires times >= 1 && start + width <= |words|
    ensures TandemAt(words, start, width, times) <==> OccursAt(words, start, Copies(words[start..start + width], times))
    decreases times
  {
    var phrase := words[start..start + width];
    assert Copies(phrase, times) == phrase + Copies(phrase, times - 1);
    if times == 1 {
      assert Copies(phrase, 1) == phrase;
      assert Excess(width, 1) == 0;
    } else {
      var rest := Copies(phrase, times - 1);
      PeelOccurrence(words, start, phrase, rest);
      assert Excess(width, times) == Excess(width, times - 1) + width;
      if start + 2 * width <= |words| {
        NextCopy(words, start, width, times);
        TandemIsCopies(words, start + width, width, times - 1);
      }
    }
  }

  /** The second copy stands right behind the first, and begins a repeat with one copy less. */
  lemma NextCopy(words: seq<string>, start: nat, width: nat, times: nat)
    requires times >= 2 && start + 2 * width <= |words|
    ensures var phrase, second := words[start..start + width], words[start + width..start + 2 * width];
      && (OccursAt(words, start + width, Copies(phrase, times - 1)) ==> second == phrase)
      && (TandemAt(words, start, width, times) <==> phrase == second && TandemAt(words, start + width, width, times - 1))
  {
    var phrase := words[start..start + width];
    PeelOccurrence(words, start + width, phrase, Copies(phrase, times - 2));
    PeelPeriod(words, start, width, Excess(width, times - 1));
    assert Excess(width, times) == Excess(width, times - 1) + width;
  }

  /** A candidate is a phrase of one to twelve words, written at least three times over or, if it has at least four words,
      twice, that covers at least six words in all; what it covers beyond the first time is its excess. */
  lemma CandidateIsCopies(words: seq<string>, start: nat, width: nat, repeats: nat)
    ensures Candidate(words, start, width, repeats) <==>
      && 1 <= width <= 12 && 2 * width <= |words| && start + width <= |words| && repeats >= 1
      && OccursAt(words, start, Copies(words[start..start + width], repeats))
      && (repeats >= 3 || (width >= 4 && repeats == 2)) && width * repeats >= 6
    ensures repeats >= 1 ==> Excess(width, repeats) == width * repeats - width
  {
    SpanIsProduct(width, repeats);
    if repeats >= 1 {
      SpanIsProduct(width, repeats - 1);
      if start + width <= |words| {
        TandemIsCopies(words, start, width, repeats);
      }
    }
    if Candidate(words, start, width, repeats) {
      assert Excess(width, repeats) >= Excess(width, 2) == width by {
        SpanGrows(width, 1, repeats - 1);
      }
    }
  }

  lemma PeelOccurrence(words: seq<string>, start: nat, a: seq<string>, b: seq<string>)
    ensures OccursAt(words, start, a + b) <==> OccursAt(words, start, a) && OccursAt(words, start + |a|, b)
  {
    if start + |a + b| <= |words| {
      var whole := words[start..start + |a + b|];
      assert whole[..|a|] == words[start..start + |a|] && whole[|a|..] == words[start + |a|..start + |a| + |b|];
      assert whole == whole[..|a|] + whole[|a|..];
      assert (a + b)[..|a|] == a && (a + b)[|a|..] == b;
    }
  }

  lemma PeelPeriod(words: seq<string>, start: nat, width: nat, len: nat)
    requires start + 2 * width <= |words|
    ensures Periodic(words, start, width, len + width)
       <==> words[start..start + width] == words[start + width..start + 2 * width]
            && Periodic(words, start + width, width, len)
  {
    var phrase, second := words[start..start + width], words[start + width..start + 2 * width];
    if phrase == second && Periodic(words, start + width, width, len) {
      forall d | start <= d < start + (len + width)
        ensures words[d] == words[d + width]
      {
        if d < start + width {
          assert phrase[d - start] == second[d - start];
        }
      }
    }
    if Periodic(words, start, width, len + width) {
      forall k | 0 <= k < width
        ensures phrase[k] == second[k]
      {
        assert words[start + k] == words[start + k + width];
      }
    }
  }

  // ----- why the skip loses nothing -----

  /** A start inside a maximal run has no more copies than the run. */
  lemma SkipIsLossless(words: seq<string>, start: nat, width: nat, repeats: nat, inside: nat, times: nat)
    requires TandemAt(words, start, width, repeats) && !TandemAt(words, start, width, repeats + 1)
    requires start <= inside && (inside == start || inside < start + Excess(width, repeats))
    requires TandemAt(words, inside, width, times)
    ensures times <= repeats
  {
    if times > repeats {
      SpanGrows(width, repeats, times - 1);
      assert Periodic(words, start, width, Excess(width, repeats + 1));
    }
  }

  lemma WeakerCandidate(width: nat, repeats: nat, times: nat)
    requires times <= repeats && MeetsThresholds(width, times)
    ensures MeetsThresholds(width, repeats)
    ensures Excess(width, times) <= Excess(width, repeats)
  {
    SpanGrows(width, times, repeats);
    SpanGrows(width, times - 1, repeats - 1);
  }

  // ----- the search -----

  /** Slicing that clamps its bounds to the sequence. */
  function Slice(words: seq<string>, lo: nat, hi: nat): seq<string> {
    if lo >= hi || lo >= |words| then [] else if hi <= |words| then words[lo..hi] else words[lo..]
  }

  method CountRepeats(words: seq<string>, index: nat, width: nat) returns (repeats: nat)
    requires width >= 1 && index + width <= |words|
    ensures repeats >= 1
    ensures TandemAt(words, index, width, repeats) && !TandemAt(words, index, width, repeats + 1)
  {
    var phrase := words[index..index + width];
    repeats := 1;
    NextCopyTest(words, index, width, repeats);
    while Slice(words, index + repeats * width, index + (repeats + 1) * width) == phrase
      invariant TandemAt(words, index, width, repeats)
      invariant NextCopyIs(words, index, width, repeats, phrase) <==> TandemAt(words, index, width, repeats + 1)
      invariant repeats <= |words|
      decreases |words| - repeats
    {
      repeats := repeats + 1;
      NextCopyTest(words, index, width, repeats);
    }
  }

  predicate NextCopyIs(words: seq<string>, index: nat, width: nat, repeats: nat, phrase: seq<string>) {
    Slice(words, index + repeats * width, index + (repeats + 1) * width) == phrase
  }

  lemma NextCopyTest(words: seq<string>, index: nat, width: nat, repeats: nat)
    requires width >= 1 && TandemAt(words, index, width, repeats)
    ensures NextCopyIs(words, index, width, repeats, words[index..index + width])
       <==> TandemAt(words, index, width, repeats + 1)
    ensures repeats <= |words|
  {
    SpanIsProduct(width, repeats);
    SpanIsProduct(width, repeats + 1);
    OneMoreCopy(words, index, width, repeats);
  }

  lemma OneMoreCopy(words: seq<string>, index: nat, width: nat, repeats: nat)
    requires width >= 1 && TandemAt(words, index, width, repeats)
    ensures TandemAt(words, index, width, repeats + 1)
       <==> Slice(words, index + Span(width, repeats), index + Span(width, repeats + 1)) == words[index..index + width]
    ensures repeats <= |words|
  {
    var len := Excess(width, repeats);
    SpanAtLeast(width, repeats - 1);
    LastCopy(words, index, width, repeats);
    CopyTest(words, index, width, index + len, index + Span(width, repeats), index + Span(width, repeats + 1));
    PeriodGrows(words, index, width, len);
  }

  /** The next `width` words are the phrase exactly if they are there and the period goes on. */
  lemma CopyTest(words: seq<string>, start: nat, width: nat, at: nat, lo: nat, hi: nat)
    requires width >= 1 && lo == at + width <= |words| && hi == lo + width && start <= at
    requires words[at..lo] == words[start..start + width]
    ensures Periodic(words, at, width, width) <==> Slice(words, lo, hi) == words[start..start + width]
  {
    if hi <= |words| {
      EqualRuns(words, at, width);
    } else {
      ShortSlice(words, lo, hi);
    }
  }

  lemma ShortSlice(words: seq<string>, lo: nat, hi: nat)
    requires lo <= |words| < hi
    ensures |Slice(words, lo, hi)| < hi - lo
  {
  }

  lemma PeriodGrows(words: seq<string>, start: nat, width: nat, len: nat)
    requires Periodic(words, start, width, len)
    ensures Periodic(words, start, width, len + width) <==> Periodic(words, start + len, width, width)
  {
  }

  lemma {:induction false} SpanAtLeast(width: nat, times: nat)
    requires width >= 1
    ensures times <= Span(width, times)
  {
    if times > 0 {
      SpanAtLeast(width, times - 1);
    }
  }

  lemma EqualRuns(words: seq<string>, at: nat, width: nat)
    requires at + 2 * width <= |words|
    ensures words[at..at + width] == words[at + width..at + 2 * width] <==> Periodic(words, at, width, width)
  {
    var a, b := words[at..at + width], words[at + width..at + 2 * width];
    if Periodic(words, at, width, width) {
      forall k | 0 <= k < width ensures a[k] == b[k] {
        assert words[at + k] == words[at + k + width];
      }
    }
    if a == b {
      forall d | at <= d < at + width ensures words[d] == words[d + width] {
        assert a[d - at] == b[d - at];
      }
    }
  }

  lemma {:induction false} LastCopy(words: seq<string>, index: nat, width: nat, repeats: nat)
    requires TandemAt(words, index, width, repeats)
    ensures words[index + Excess(width, repeats)..index + Excess(width, repeats) + width] == words[index..index + width]
    decreases repeats
  {
    if repeats > 1 {
      var len := Excess(width, repeats - 1);
      LastCopy(words, index, width, repeats - 1);
      EqualRuns(words, index + len, width);
    }
  }

  /** Every candidate before position (width, index) of the scan is at most `best`, and not earlier when as strong. */
  ghost predicate Covered(words: seq<string>, best: Option<Repeat>, bestStart: nat, bestWidth: nat, width: nat, index: nat) {
    && (best.Some? ==>
          && Reports(words, best.value, bestStart, bestWidth)
          && (bestWidth < width || (bestWidth == width && bestStart < index)))
    && forall s: nat, w: nat, r: nat | Candidate(words, s, w, r) && (w < width || (w == width && s < index)) ::
         && best.Some?
         && Excess(w, r) <= best.value.excess
         && (Excess(w, r) == best.value.excess ==> bestWidth < w || (bestWidth == w && bestStart <= s))
  }

  method StrongestRepeat(words: seq<string>) returns (best: Option<Repeat>)
    ensures best.None? <==> forall s: nat, w: nat, r: nat :: !Candidate(words, s, w, r)
    ensures best.Some? ==> exists start: nat, width: nat ::
      Reports(words, best.value, start, width) && Strongest(words, best.value, start, width)
  {
    best := None;
    ghost var bestStart, bestWidth := 0, 0;
    for width := 1 to WidthLimit(|words|) + 1
      invariant Covered(words, best, bestStart, bestWidth, width, 0)
    {
      var index := 0;
      while index + width * 2 <= |words|
        invariant Covered(words, best, bestStart, bestWidth, width, index)
        decreases |words| - index
      {
        var repeats := CountRepeats(words, index, width);
        var excess := width * (repeats - 1);
        SpanIsProduct(width, repeats - 1);
        ghost var before, beforeStart, beforeWidth := best, bestStart, bestWidth;
        if MeetsThresholds(width, repeats) {
          if best.None? || excess > best.value.excess {
            best := Some(Repeat(JoinWith(words[index..index + width], " "), repeats, excess));
            bestStart, bestWidth := index, width;
          }
        }
        var step := if excess > 1 then excess else 1;
        ScanStep(words, before, beforeStart, beforeWidth, best, bestStart, bestWidth, width, index, repeats, step);
        index := index + step;
      }
      ScanEnd(words, best, bestStart, bestWidth, width, index);
    }
    if best.Some? {
      assert Strongest(words, best.value, bestStart, bestWidth);
    }
  }

  /** `best` after the scan has looked at a run of `repeats` copies at `index`, having held `before`. */
  ghost predicate Updated(words: seq<string>, before: Option<Repeat>, beforeStart: nat, beforeWidth: nat,
                          best: Option<Repeat>, bestStart: nat, bestWidth: nat, width: nat, index: nat, repeats: nat)
    requires index + width <= |words| && repeats >= 1
  {
    if MeetsThresholds(width, repeats) && (before.None? || Excess(width, repeats) > before.value.excess) then
      best == Some(Repeat(JoinWith(words[index..index + width], " "), repeats, Excess(width, repeats)))
      && bestStart == index && bestWidth == width
    else
      best == before && bestStart == beforeStart && bestWidth == beforeWidth
  }

  lemma ScanStep(words: seq<string>, before: Option<Repeat>, beforeStart: nat, beforeWidth: nat,
                 best: Option<Repeat>, bestStart: nat, bestWidth: nat,
                 width: nat, index: nat, repeats: nat, step: nat)
    requires 1 <= width <= WidthLimit(|words|) && repeats >= 1 && index + width <= |words|
    requires TandemAt(words, index, width, repeats) && !TandemAt(words, index, width, repeats + 1)
    requires Covered(words, before, beforeStart, beforeWidth, width, index)
    requires step == if Excess(width, repeats) > 1 then Excess(width, repeats) else 1
    requires Updated(words, before, beforeStart, beforeWidth, best, bestStart, bestWidth, width, index, repeats)
    ensures Covered(words, best, bestStart, bestWidth, width, index + step)
  {
    RunBound(words, width, index, repeats, step);
    forall s: nat, w: nat, r: nat | Candidate(words, s, w, r) && (w < width || (w == width && s < index + step))
      ensures best.Some?
      ensures Excess(w, r) <= best.value.excess
      ensures Excess(w, r) == best.value.excess ==> bestWidth < w || (bestWidth == w && bestStart <= s)
    {
    }
    if best != before {
      assert Candidate(words, index, width, repeats);
    }
  }

  lemma RunBound(words: seq<string>, width: nat, index: nat, repeats: nat, step: nat)
    requires repeats >= 1
    requires TandemAt(words, index, width, repeats) && !TandemAt(words, index, width, repeats + 1)
    requires step == if Excess(width, repeats) > 1 then Excess(width, repeats) else 1
    ensures forall s: nat, r: nat | index <= s < index + step && Candidate(words, s, width, r) ::
      MeetsThresholds(width, repeats) && Excess(width, r) <= Excess(width, repeats)
  {
    forall s: nat, r: nat | index <= s < index + step && Candidate(words, s, width, r)
      ensures MeetsThresholds(width, repeats) && Excess(width, r) <= Excess(width, repeats)
    {
      InsideRun(words, width, index, repeats, s, r);
    }
  }

  lemma InsideRun(words: seq<string>, width: nat, index: nat, repeats: nat, s: nat, r: nat)
    requires repeats >= 1
    requires TandemAt(words, index, width, repeats) && !TandemAt(words, index, width, repeats + 1)
    requires index <= s && (s == index || s < index + Excess(width, repeats))
    requires Candidate(words, s, width, r)
    ensures MeetsThresholds(width, repeats) && Excess(width, r) <= Excess(width, repeats)
  {
    SkipIsLossless(words, index, width, repeats, s, r);
    WeakerCandidate(width, repeats, r);
  }

  lemma ScanEnd(words: seq<string>, best: Option<Repeat>, bestStart: nat, bestWidth: nat, width: nat, index: nat)
    requires index + width * 2 > |words|
    requires Covered(words, best, bestStart, bestWidth, width, index)
    ensures Covered(words, best, bestStart, bestWidth, width + 1, 0)
  {
    forall s: nat, w: nat, r: nat | Candidate(words, s, w, r) && w == width
      ensures s < index
    {
      SpanGrows(width, 1, r - 1);
    }
  }
}
