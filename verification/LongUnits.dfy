/** Words, clauses and character slices: what a unit of text too long for one request is cut into
    (crates/bookforge-audio/src/text.rs:573-587, 830-928). */
module LongUnits {
  import opened Strings
  import opened Sentences
  import opened GreedyPacking
  import opened Packing

  // ----- words -----

  /** `split_whitespace`: the maximal runs without whitespace, `current` being the one begun. */
  function WordsFrom(s: string, current: string): seq<string> {
    if s == "" then Flushed(current)
    else if IsWhitespace(s[0]) then Flushed(current) + WordsFrom(s[1..], "")
    else WordsFrom(s[1..], current + [s[0]])
  }

  function Words(s: string): seq<string> {
    WordsFrom(s, "")
  }

  /** A stretch of a text. */
  datatype Span = Span(lo: nat, hi: nat)

  /** A run without whitespace that neither side continues. */
  ghost predicate IsRun(s: string, run: Span) {
    && run.lo < run.hi <= |s| && (forall k | run.lo <= k < run.hi :: !IsWhitespace(s[k]))
    && (run.lo == 0 || IsWhitespace(s[run.lo - 1])) && (run.hi == |s| || IsWhitespace(s[run.hi]))
  }

  ghost predicate Covered(runs: seq<Span>, p: nat) {
    exists k :: 0 <= k < |runs| && runs[k].lo <= p < runs[k].hi
  }

  /** `runs` are runs in order, and every visible character from `from` on is in one of them. */
  ghost predicate AreRuns(s: string, from: nat, runs: seq<Span>) {
    && (forall k | 0 <= k < |runs| :: from <= runs[k].lo && IsRun(s, runs[k]))
    && (forall j, k | 0 <= j < k < |runs| :: runs[j].hi < runs[k].lo)
    && forall p: nat | from <= p < |s| && !IsWhitespace(s[p]) :: Covered(runs, p)
  }

  function TextAt(s: string, run: Span): string {
    if run.lo <= run.hi <= |s| then s[run.lo..run.hi] else ""
  }

  ghost predicate AreTextsOf(words: seq<string>, s: string, runs: seq<Span>) {
    |words| == |runs| && forall k | 0 <= k < |words| :: words[k] == TextAt(s, runs[k])
  }

  /** The words of a text are its maximal runs without whitespace, all of them, in order. */
  lemma WordsAreRuns(s: string) returns (runs: seq<Span>)
    ensures AreRuns(s, 0, runs) && AreTextsOf(Words(s), s, runs)
  {
    assert s[0..] == s && s[0..0] == "";
    runs := RunsFrom(s, 0, 0);
  }

  /** What has been read of a word that begins at `lo`. */
  ghost predicate IsWord(s: string, lo: nat, i: nat) {
    lo <= i <= |s| && (lo == 0 || IsWhitespace(s[lo - 1])) && forall k | lo <= k < i :: !IsWhitespace(s[k])
  }

  lemma {:induction false} RunsFrom(s: string, lo: nat, i: nat) returns (runs: seq<Span>)
    requires IsWord(s, lo, i)
    ensures AreRuns(s, lo, runs) && AreTextsOf(WordsFrom(s[i..], s[lo..i]), s, runs)
    decreases |s| - i, 1
  {
    if i == |s| {
      runs := RunAtEnd(s, lo, i);
    } else if IsWhitespace(s[i]) {
      runs := RunAtBreak(s, lo, i);
    } else {
      runs := RunGoesOn(s, lo, i);
    }
  }

  lemma RunAtEnd(s: string, lo: nat, i: nat) returns (runs: seq<Span>)
    requires IsWord(s, lo, i) && i == |s|
    ensures AreRuns(s, lo, runs) && AreTextsOf(WordsFrom(s[i..], s[lo..i]), s, runs)
  {
    WordsAtEnd(s, lo, i);
    runs := RunBefore(s, lo, i, [], []);
  }

  lemma {:induction false} RunAtBreak(s: string, lo: nat, i: nat) returns (runs: seq<Span>)
    requires IsWord(s, lo, i) && i < |s| && IsWhitespace(s[i])
    ensures AreRuns(s, lo, runs) && AreTextsOf(WordsFrom(s[i..], s[lo..i]), s, runs)
    decreases |s| - i, 0
  {
    var later := RunsFrom(s, i + 1, i + 1);
    WordsAtBreak(s, lo, i);
    runs := RunBefore(s, lo, i, later, WordsFrom(s[i + 1..], s[i + 1..i + 1]));
  }

  lemma {:induction false} RunGoesOn(s: string, lo: nat, i: nat) returns (runs: seq<Span>)
    requires IsWord(s, lo, i) && i < |s| && !IsWhitespace(s[i])
    ensures AreRuns(s, lo, runs) && AreTextsOf(WordsFrom(s[i..], s[lo..i]), s, runs)
    decreases |s| - i, 0
  {
    WordGoesOn(s, lo, i);
    runs := RunsFrom(s, lo, i + 1);
  }

  lemma WordGoesOn(s: string, lo: nat, i: nat)
    requires lo <= i < |s| && !IsWhitespace(s[i])
    ensures WordsFrom(s[i..], s[lo..i]) == WordsFrom(s[i + 1..], s[lo..i + 1])
  {
    assert s[lo..i] + [s[i]] == s[lo..i + 1] && s[i..][1..] == s[i + 1..];
  }

  lemma WordsAtBreak(s: string, lo: nat, i: nat)
    requires lo <= i < |s| && IsWhitespace(s[i])
    ensures WordsFrom(s[i..], s[lo..i]) == Flushed(s[lo..i]) + WordsFrom(s[i + 1..], s[i + 1..i + 1])
  {
    assert s[i..][1..] == s[i + 1..] && s[i + 1..i + 1] == "";
  }

  lemma WordsAtEnd(s: string, lo: nat, i: nat)
    requires lo <= i == |s|
    ensures WordsFrom(s[i..], s[lo..i]) == Flushed(s[lo..i]) + []
  {
    assert s[i..] == "" && Flushed(s[lo..i]) + [] == Flushed(s[lo..i]);
  }

  /** The word in hand ends here, if there is one. */
  lemma RunBefore(s: string, lo: nat, i: nat, later: seq<Span>, words: seq<string>) returns (runs: seq<Span>)
    requires IsWord(s, lo, i) && (i < |s| ==> IsWhitespace(s[i])) && AreRuns(s, i + 1, later)
    requires AreTextsOf(words, s, later)
    ensures AreRuns(s, lo, runs) && AreTextsOf(Flushed(s[lo..i]) + words, s, runs)
  {
    if lo == i {
      runs := later;
      assert Flushed(s[lo..i]) + words == words;
    } else {
      runs := [Span(lo, i)] + later;
      OneRunMore(s, Span(lo, i), later);
      OneTextMore(words, s, Span(lo, i), later);
    }
  }

  lemma OneTextMore(words: seq<string>, s: string, run: Span, later: seq<Span>)
    requires AreTextsOf(words, s, later)
    ensures AreTextsOf([TextAt(s, run)] + words, s, [run] + later)
  {
  }

  lemma OneRunMore(s: string, run: Span, later: seq<Span>)
    requires IsRun(s, run) && AreRuns(s, run.hi + 1, later)
    ensures AreRuns(s, run.lo, [run] + later)
  {
    var runs := [run] + later;
    forall p: nat | run.lo <= p < |s| && !IsWhitespace(s[p]) ensures Covered(runs, p) {
      if p > run.hi {
        assert Covered(later, p);
      }
      CoveredByMore(run, later, p);
    }
  }

  lemma CoveredByMore(run: Span, later: seq<Span>, p: nat)
    ensures Covered([run] + later, p) <==> run.lo <= p < run.hi || Covered(later, p)
  {
    var runs := [run] + later;
    if run.lo <= p < run.hi {
      assert runs[0].lo <= p < runs[0].hi;
    } else if Covered(later, p) {
      var k :| 0 <= k < |later| && later[k].lo <= p < later[k].hi;
      assert runs[k + 1] == later[k];
    }
  }

  lemma {:induction false} WordsKeepText(s: string, current: string)
    ensures Flatten(WordsFrom(s, current)) == current + NonBlank(s)
  {
    FlattenOne(current);
    if s == "" {
      assert current + "" == current;
    } else if IsWhitespace(s[0]) {
      WordsKeepText(s[1..], "");
      FlattenConcat(Flushed(current), WordsFrom(s[1..], ""));
      assert "" + NonBlank(s) == NonBlank(s);
    } else {
      WordsKeepText(s[1..], current + [s[0]]);
      Regroup(current, [s[0]], NonBlank(s[1..]));
    }
  }

  lemma {:induction false} WordsNotEmpty(s: string, current: string)
    ensures NoEmpty(WordsFrom(s, current))
  {
    if s != "" {
      WordsNotEmpty(s[1..], if IsWhitespace(s[0]) then "" else current + [s[0]]);
    }
  }

  /** Text whose words so far are `finished` and then `current`, written with single spaces. */
  function Collapsed(finished: seq<string>, current: string): string {
    if current == "" then JoinWith(finished, " ") else if finished == [] then current else JoinWith(finished, " ") + " " + current
  }

  /** Every run of whitespace becomes one space, and none is left at the ends. */
  method CollapseWhitespace(text: string) returns (out: string)
    ensures out == JoinWith(Words(text), " ")
  {
    out := "";
    var pendingSpace := false;
    ghost var finished: seq<string> := [];
    ghost var current := "";
    for k := 0 to |text|
      invariant finished + WordsFrom(text[k..], current) == Words(text)
      invariant out == Collapsed(finished, current)
      invariant out == "" <==> finished == [] && current == ""
      invariant pendingSpace <==> current == "" && finished != []
    {
      var ch := text[k];
      assert text[k..][0] == ch && text[k..][1..] == text[k + 1..];
      if IsWhitespace(ch) {
        pendingSpace := out != "";
        FlushWord(finished, current);
        Regroup(finished, Flushed(current), WordsFrom(text[k + 1..], ""));
        finished, current := finished + Flushed(current), "";
      } else {
        if pendingSpace {
          out := out + " ";
          pendingSpace := false;
        }
        out := out + [ch];
        current := current + [ch];
      }
    }
    FlushWord(finished, current);
  }

  lemma FlushWord(finished: seq<string>, current: string)
    ensures JoinWith(finished + Flushed(current), " ") == Collapsed(finished, current)
  {
    if current == "" {
      assert finished + [] == finished;
    } else if finished != [] {
      JoinConcat(finished, [current], " ");
    }
  }

  /** Collapsed text keeps the visible characters and has no line break: what SplitIsHomomorphic asks of a paragraph. */
  lemma CollapsedIsOneLine(text: string)
    ensures NonBlank(JoinWith(Words(text), " ")) == NonBlank(text)
    ensures '\n' !in JoinWith(Words(text), " ")
  {
    WordsKeepText(text, "");
    JoinNonBlank(Words(text), " ");
    NonBlankTwice(text);
    WordsHaveNoSpace(text, "");
    JoinOneLine(Words(text));
  }

  lemma {:induction false} NonBlankTwice(s: string)
    ensures NonBlank("" + NonBlank(s)) == NonBlank(s)
  {
    assert "" + NonBlank(s) == NonBlank(s);
    if s != "" {
      NonBlankTwice(s[1..]);
      assert "" + NonBlank(s[1..]) == NonBlank(s[1..]);
      if !IsWhitespace(s[0]) {
        assert NonBlank(s)[1..] == NonBlank(s[1..]);
      }
    }
  }

  lemma {:induction false} WordsHaveNoSpace(s: string, current: string)
    requires '\n' !in current
    ensures forall k | 0 <= k < |WordsFrom(s, current)| :: '\n' !in WordsFrom(s, current)[k]
  {
    if s != "" {
      if IsWhitespace(s[0]) {
        WordsHaveNoSpace(s[1..], "");
      } else {
        WordsHaveNoSpace(s[1..], current + [s[0]]);
      }
    }
  }

  lemma {:induction false} JoinOneLine(parts: seq<string>)
    requires forall k | 0 <= k < |parts| :: '\n' !in parts[k]
    ensures '\n' !in JoinWith(parts, " ")
  {
    if |parts| > 1 {
      JoinOneLine(parts[1..]);
    }
  }

  // ----- the last resort: cutting every `max` characters -----

  function Slices(word: string, max: nat): seq<string>
    requires max >= 1
  {
    if word == "" then [] else if |word| <= max then [word] else [word[..max]] + Slices(word[max..], max)
  }

  method SplitByChars(word: string, max: nat) returns (pieces: seq<string>)
    requires max >= 1
    ensures pieces == Slices(word, max)
  {
    pieces := [];
    var current := "";
    var count := 0;
    assert "" + word[0..] == word;
    for k := 0 to |word|
      invariant |current| == count < max
      invariant pieces + Slices(current + word[k..], max) == Slices(word, max)
    {
      assert current + word[k..] == (current + [word[k]]) + word[k + 1..];
      current := current + [word[k]];
      count := count + 1;
      if count == max {
        FirstSlice(current, word[k + 1..], max);
        Regroup(pieces, [current], Slices(word[k + 1..], max));
        pieces := pieces + [current];
        current := "";
        count := 0;
        assert "" + word[k + 1..] == word[k + 1..];
      }
    }
    assert current + word[|word|..] == current;
    if current != "" {
      pieces := pieces + [current];
    }
  }

  lemma FirstSlice(first: string, rest: string, max: nat)
    requires |first| == max >= 1
    ensures Slices(first + rest, max) == [first] + Slices(rest, max)
  {
    if rest == "" {
      assert first + rest == first;
    } else {
      assert (first + rest)[..max] == first && (first + rest)[max..] == rest;
    }
  }

  lemma {:induction false} SlicesReproduce(word: string, max: nat)
    requires max >= 1
    ensures Flatten(Slices(word, max)) == word && Within(Slices(word, max), max)
  {
    FlattenOne(word);
    if |word| > max {
      SlicesReproduce(word[max..], max);
      assert word == word[..max] + word[max..];
    }
  }

  /** Every slice but the last is full. */
  lemma {:induction false} SlicesAreFull(word: string, max: nat)
    requires max >= 1
    ensures forall k | 0 <= k < |Slices(word, max)| - 1 :: |Slices(word, max)[k]| == max
    ensures NoEmpty(Slices(word, max))
  {
    if |word| > max {
      SlicesAreFull(word[max..], max);
    }
  }

  // ----- clauses of unspaced text -----

  const CLAUSE_BREAKS := "、，；：,"

  /** The clauses still to come, `current` being the one begun. */
  function ClausesFrom(unit: string, current: string): seq<string> {
    if unit == "" then (if Trim(current) == "" then [] else [current])
    else
      var next := current + [unit[0]];
      if unit[0] in CLAUSE_BREAKS && Trim(next) != "" then [next] + ClausesFrom(unit[1..], "")
      else ClausesFrom(unit[1..], next)
  }

  function Retained(clauses: seq<string>): seq<string> {
    if clauses == [] then []
    else (if clauses[0] == "" then [] else [clauses[0]]) + Retained(clauses[1..])
  }

  lemma {:induction false} RetainAll(clauses: seq<string>)
    requires NoEmpty(clauses)
    ensures Retained(clauses) == clauses
  {
    if clauses != [] {
      RetainAll(clauses[1..]);
    }
  }

  method SplitUnspacedClauses(unit: string) returns (clauses: seq<string>)
    ensures clauses == ClausesFrom(unit, "")
  {
    clauses := [];
    var current := "";
    for k := 0 to |unit|
      invariant clauses + ClausesFrom(unit[k..], current) == ClausesFrom(unit, "")
    {
      assert unit[k..][1..] == unit[k + 1..];
      current := current + [unit[k]];
      if unit[k] in CLAUSE_BREAKS && Trim(current) != "" {
        Regroup(clauses, [current], ClausesFrom(unit[k + 1..], ""));
        clauses := clauses + [current];
        current := "";
      }
    }
    if Trim(current) != "" {
      clauses := clauses + [current];
    }
    assert clauses == ClausesFrom(unit, "");
    ClausesNotEmpty(unit, "");
    RetainAll(clauses);
    clauses := Retained(clauses);
  }

  lemma {:induction false} ClausesKeepText(unit: string, current: string)
    ensures NonBlank(Flatten(ClausesFrom(unit, current))) == NonBlank(current + unit)
  {
    if unit == "" {
      assert current + unit == current;
      TrimNonBlank(current);
      FlattenOne(current);
      if Trim(current) == "" {
        NonBlankOfBlank(current);
      }
    } else {
      var next := current + [unit[0]];
      assert current + unit == next + unit[1..];
      ClausesKeepText(unit[1..], next);
      ClausesKeepText(unit[1..], "");
      NonBlankConcat(next, unit[1..]);
      FlattenOne(next);
      NonBlankFlattenConcat([next], ClausesFrom(unit[1..], ""));
      assert "" + unit[1..] == unit[1..];
    }
  }

  lemma {:induction false} ClausesNotEmpty(unit: string, current: string)
    ensures NoEmpty(ClausesFrom(unit, current))
  {
    if unit != "" {
      ClausesNotEmpty(unit[1..], current + [unit[0]]);
      ClausesNotEmpty(unit[1..], "");
    }
  }

  ghost predicate HasNoBreak(s: string) {
    forall k | 0 <= k < |s| :: s[k] !in CLAUSE_BREAKS
  }

  /** A clause ends at its first mark. */
  ghost predicate EndsAtMark(clause: string) {
    clause != "" && clause[|clause| - 1] in CLAUSE_BREAKS && HasNoBreak(clause[..|clause| - 1])
  }

  lemma BreaksAreVisible(current: string, ch: char)
    requires ch in CLAUSE_BREAKS
    ensures Trim(current + [ch]) != ""
  {
    TrimNonBlank(current + [ch]);
    assert !IsWhitespace((current + [ch])[|current|]);
  }

  /** Every clause but the last ends at its first mark, and the last ends there or has none: the text is cut behind every
      mark and nowhere else. */
  lemma {:induction false} ClausesEndAtMarks(unit: string, current: string)
    requires HasNoBreak(current)
    ensures var clauses := ClausesFrom(unit, current);
      && (forall k | 0 <= k < |clauses| - 1 :: EndsAtMark(clauses[k]))
      && (clauses != [] ==> EndsAtMark(clauses[|clauses| - 1]) || HasNoBreak(clauses[|clauses| - 1]))
  {
    if unit != "" {
      var next := current + [unit[0]];
      if unit[0] in CLAUSE_BREAKS {
        BreaksAreVisible(current, unit[0]);
        ClausesEndAtMarks(unit[1..], "");
        assert next[..|next| - 1] == current;
      } else {
        ClausesEndAtMarks(unit[1..], next);
      }
    }
  }

  /** What follows the last clause mark. */
  function LastClause(unit: string): string {
    if unit == "" || unit[|unit| - 1] in CLAUSE_BREAKS then ""
    else LastClause(unit[..|unit| - 1]) + [unit[|unit| - 1]]
  }

  lemma {:induction false} LastClauseOfRest(clause: string, rest: string)
    requires clause != "" && clause[|clause| - 1] in CLAUSE_BREAKS
    ensures LastClause(clause + rest) == LastClause(rest)
  {
    if rest == "" {
      assert clause + rest == clause;
    } else {
      assert (clause + rest)[..|clause + rest| - 1] == clause + rest[..|rest| - 1];
      LastClauseOfRest(clause, rest[..|rest| - 1]);
    }
  }

  lemma {:induction false} LastClauseUnmarked(clause: string)
    requires forall k | 0 <= k < |clause| :: clause[k] !in CLAUSE_BREAKS
    ensures LastClause(clause) == clause
  {
    if clause != "" {
      LastClauseUnmarked(clause[..|clause| - 1]);
    }
  }

  function Dropped(rest: string): string {
    if Blank(rest) then rest else ""
  }

  /** The clauses and a dropped blank rest are the whole unit. */
  lemma {:induction false} ClausesAndRest(unit: string, current: string)
    requires forall k | 0 <= k < |current| :: current[k] !in CLAUSE_BREAKS
    ensures Flatten(ClausesFrom(unit, current)) + Dropped(LastClause(current + unit)) == current + unit
  {
    if unit == "" {
      assert current + unit == current;
      LastClauseUnmarked(current);
      TrimNonBlank(current);
      FlattenOne(current);
    } else {
      var next, rest := current + [unit[0]], unit[1..];
      assert current + unit == next + rest;
      if unit[0] in CLAUSE_BREAKS {
        MarkedIsVisible(next);
        LastClauseOfRest(next, rest);
        ClausesAndRest(rest, "");
        assert "" + rest == rest;
        Regroup(next, Flatten(ClausesFrom(rest, "")), Dropped(LastClause(rest)));
      } else {
        ClausesAndRest(rest, next);
      }
    }
  }

  lemma MarkedIsVisible(clause: string)
    requires clause != "" && clause[|clause| - 1] in CLAUSE_BREAKS
    ensures Trim(clause) != ""
  {
    TrimNonBlank(clause);
    assert !IsWhitespace(clause[|clause| - 1]);
  }

  /** The clauses put together are the unit unless nothing but whitespace, and some of it, follows the last clause mark. */
  lemma ClausesReproduceIff(unit: string)
    ensures Flatten(ClausesFrom(unit, "")) == unit <==> LastClause(unit) == "" || !Blank(LastClause(unit))
  {
    ClausesAndRest(unit, "");
    assert "" + unit == unit;
  }

  // ----- a unit longer than the limit -----

  function UnitParts(script: Script, unit: string): seq<string> {
    if script.isSpaceDelimited(unit) then Words(unit) else ClausesFrom(unit, "")
  }

  function UnitSeparator(script: Script, unit: string): string {
    if script.isSpaceDelimited(unit) then " " else ""
  }

  function HardSlices(max: nat): HardSplit
    requires max >= 1
  {
    (word: string) => Slices(word, max)
  }

  function LongUnitPieces(script: Script, unit: string, max: nat): seq<string>
    requires max >= 1
  {
    Pack(UnitParts(script, unit), UnitSeparator(script, unit), max, HardSlices(max), "")
  }

  /** `done`, the units from `k` on and the buffer `current` complete the whole packing. */
  ghost predicate Packs(done: seq<string>, units: seq<string>, k: nat, separator: string, max: nat, hard: HardSplit,
                        current: string, whole: seq<string>)
    requires k <= |units|
  {
    done + Pack(units[k..], separator, max, hard, current) == whole
  }

  /** One round of the packing loop. */
  lemma PackRound(done: seq<string>, units: seq<string>, k: nat, separator: string, max: nat, hard: HardSplit,
                  current: string, whole: seq<string>)
    requires k < |units| && Packs(done, units, k, separator, max, hard, current, whole)
    ensures
      if |units[k]| > max then
        Packs(done + Flushed(current) + hard(units[k]), units, k + 1, separator, max, hard, "", whole)
      else if |Separated(current, separator, units[k])| > max then
        Packs(done + [current], units, k + 1, separator, max, hard, units[k], whole)
      else
        Packs(done, units, k + 1, separator, max, hard, Separated(current, separator, units[k]), whole)
  {
    assert units[k..][0] == units[k] && units[k..][1..] == units[k + 1..];
    if |units[k]| > max {
      var rest := Pack(units[k + 1..], separator, max, hard, "");
      Regroup(done, Flushed(current) + hard(units[k]), rest);
      Regroup(done, Flushed(current), hard(units[k]));
    } else if |Separated(current, separator, units[k])| > max {
      Regroup(done, [current], Pack(units[k + 1..], separator, max, hard, units[k]));
    }
  }

  lemma PackEnd(done: seq<string>, units: seq<string>, separator: string, max: nat, hard: HardSplit,
                current: string, whole: seq<string>)
    requires Packs(done, units, |units|, separator, max, hard, current, whole)
    ensures done + Flushed(current) == whole
  {
  }

  /** Put a unit that is not too long into the buffer, pushing the buffer first when it has no room. */
  method Place(pushed: seq<string>, held: string, unit: string, separator: string, max: nat)
    returns (pieces: seq<string>, current: string)
    requires |separator| <= 1 && |unit| <= max
    ensures if |Separated(held, separator, unit)| > max
      then pieces == pushed + [held] && current == unit
      else pieces == pushed && current == Separated(held, separator, unit)
  {
    pieces, current := pushed, held;
    var separatorLen := if separator != "" && current != "" then 1 else 0;
    if |current| + separatorLen + |unit| > max {
      pieces := pieces + [current];
      current := "";
    }
    if current != "" && separator != "" {
      current := current + separator;
    }
    current := current + unit;
  }

  method SplitLongUnit(script: Script, unit: string, max: nat) returns (pieces: seq<string>)
    requires max >= 1
    ensures pieces == LongUnitPieces(script, unit, max)
  {
    pieces := [];
    var current := "";
    var words, separator := Words(unit), " ";
    if !script.isSpaceDelimited(unit) {
      words := SplitUnspacedClauses(unit);
      separator := "";
    }
    ghost var hard, whole := HardSlices(max), LongUnitPieces(script, unit, max);
    for k := 0 to |words|
      invariant Packs(pieces, words, k, separator, max, hard, current, whole)
    {
      var slices := [];
      if |words[k]| > max {
        slices := SplitByChars(words[k], max);
      }
      pieces, current := PlaceOrSplit(pieces, current, words, k, slices, separator, max, hard, whole);
    }
    PackEnd(pieces, words, separator, max, hard, current, whole);
    if current != "" {
      pieces := pieces + [current];
    }
  }

  /** One round: push the buffer and the split of a unit that is too long, place any other. */
  method PlaceOrSplit(pushed: seq<string>, held: string, units: seq<string>, k: nat, split: seq<string>,
                      separator: string, max: nat, ghost hard: HardSplit, ghost whole: seq<string>)
    returns (pieces: seq<string>, current: string)
    requires k < |units| && |separator| <= 1
    requires |units[k]| > max ==> split == hard(units[k])
    requires Packs(pushed, units, k, separator, max, hard, held, whole)
    ensures Packs(pieces, units, k + 1, separator, max, hard, current, whole)
  {
    PackRound(pushed, units, k, separator, max, hard, held, whole);
    if |units[k]| > max {
      pieces, current := pushed, held;
      if current != "" {
        pieces := pieces + [current];
        current := "";
      }
      pieces := pieces + split;
    } else {
      pieces, current := Place(pushed, held, units[k], separator, max);
    }
  }

  lemma UnitPartsNotEmpty(script: Script, unit: string)
    ensures NoEmpty(UnitParts(script, unit))
  {
    WordsNotEmpty(unit, "");
    ClausesNotEmpty(unit, "");
  }

  lemma UnitPartsKeepText(script: Script, unit: string)
    ensures NonBlank(Flatten(UnitParts(script, unit))) == NonBlank(unit)
    ensures NoEmpty(UnitParts(script, unit)) && Blank(UnitSeparator(script, unit))
  {
    UnitPartsNotEmpty(script, unit);
    WordsKeepText(unit, "");
    NonBlankTwice(unit);
    ClausesKeepText(unit, "");
    assert "" + unit == unit;
  }

  lemma SlicesSplitWell(units: seq<string>, max: nat)
    requires max >= 1
    ensures SplitsAllWell(units, max, HardSlices(max))
  {
    forall k | 0 <= k < |units| && |units[k]| > max
      ensures SplitsWell(units[k], max, HardSlices(max))
    {
      SlicesReproduce(units[k], max);
    }
  }

  /** A long unit keeps its visible text and its pieces respect the limit. */
  lemma LongUnitSplitsWell(script: Script, unit: string, max: nat)
    requires max >= 1
    ensures NonBlank(Flatten(LongUnitPieces(script, unit, max))) == NonBlank(unit)
    ensures Within(LongUnitPieces(script, unit, max), max)
  {
    var parts, separator := UnitParts(script, unit), UnitSeparator(script, unit);
    UnitPartsKeepText(script, unit);
    SlicesSplitWell(parts, max);
    PackNonBlank(parts, separator, max, HardSlices(max), "");
    PackWithin(parts, separator, max, HardSlices(max), "");
  }

  lemma {:induction false} PackReproduces(units: seq<string>, max: nat, current: string)
    requires max >= 1
    ensures Flatten(Pack(units, "", max, HardSlices(max), current)) == current + Flatten(units)
  {
    FlattenOne(current);
    if units != [] {
      var u, rest := units[0], units[1..];
      Regroup(current, u, Flatten(rest));
      if |u| > max {
        var later := Pack(rest, "", max, HardSlices(max), "");
        PackReproduces(rest, max, "");
        assert "" + Flatten(rest) == Flatten(rest);
        SlicesReproduce(u, max);
        FlattenConcat(Flushed(current) + Slices(u, max), later);
        FlattenConcat(Flushed(current), Slices(u, max));
      } else if |Separated(current, "", u)| > max {
        PackReproduces(rest, max, u);
        FlattenConcat([current], Pack(rest, "", max, HardSlices(max), u));
      } else {
        PackReproduces(rest, max, Separated(current, "", u));
        assert current + "" == current && "" + u == u;
      }
    }
  }

  /** The pieces of an unspaced unit reproduce it exactly unless it ends in whitespace behind its last clause mark, which
      no trimmed unit does. */
  lemma UnspacedReproducesIff(script: Script, unit: string, max: nat)
    requires max >= 1 && !script.isSpaceDelimited(unit)
    ensures Flatten(LongUnitPieces(script, unit, max)) == unit <==> LastClause(unit) == "" || !Blank(LastClause(unit))
    ensures IsTrimmed(unit) ==> Flatten(LongUnitPieces(script, unit, max)) == unit
  {
    PackReproduces(ClausesFrom(unit, ""), max, "");
    assert "" + Flatten(ClausesFrom(unit, "")) == Flatten(ClausesFrom(unit, ""));
    ClausesReproduceIff(unit);
    var rest := LastClause(unit);
    assert rest != "" ==> rest[|rest| - 1] == unit[|unit| - 1];
  }

  /** When no word (or clause) is too long, no in-order grouping of them makes fewer pieces. */
  lemma LongUnitIsFewest(script: Script, unit: string, max: nat, other: seq<nat>)
    requires max >= 1 && NoneTooLong(UnitParts(script, unit), max)
    requires IsGrouping(other, 0, |UnitParts(script, unit)|, Joinable(UnitParts(script, unit), UnitSeparator(script, unit), max))
    ensures |LongUnitPieces(script, unit, max)| <= |other|
  {
    UnitPartsKeepText(script, unit);
    PackIsFewest(UnitParts(script, unit), UnitSeparator(script, unit), max, HardSlices(max), other);
  }
}
