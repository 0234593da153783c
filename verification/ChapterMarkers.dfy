/** The metadata file that puts chapter markers into the book (crates/bookforge-audio/src/stitch.rs:1250-1287). */
module ChapterMarkers {
  import opened Options
  import opened Strings
  import opened Numbers
  import opened Stitch

  predicate IsSpecial(ch: char) {
    ch == '=' || ch == ';' || ch == '#' || ch == '\\'
  }

  function Escaped(value: string): string {
    if value == "" then ""
    else
      var front, ch := Escaped(value[..|value| - 1]), value[|value| - 1];
      if IsSpecial(ch) then front + ['\\', ch]
      else if ch == '\n' then front + [' ']
      else front + [ch]
  }

  method EscapeFfmeta(value: string) returns (out: string)
    ensures out == Escaped(value)
  {
    out := "";
    for k := 0 to |value|
      invariant out == Escaped(value[..k])
    {
      assert value[..k + 1][..k] == value[..k];
      if IsSpecial(value[k]) {
        out := out + ['\\', value[k]];
      } else if value[k] == '\n' {
        out := out + [' '];
      } else {
        out := out + [value[k]];
      }
    }
    assert value[..|value|] == value;
  }

  /** What a reader of the format makes of an escaped value: a backslash stands for the next character. */
  function Unescaped(s: string): string {
    if s == "" then ""
    else if s[0] == '\\' && |s| > 1 then [s[1]] + Unescaped(s[2..])
    else [s[0]] + Unescaped(s[1..])
  }

  function OnOneLine(value: string): string {
    seq(|value|, k requires 0 <= k < |value| => if value[k] == '\n' then ' ' else value[k])
  }

  predicate IsLine(s: string) {
    '\n' !in s
  }

  /** An escaped value is one line, and results back as the value with its line breaks as spaces. */
  lemma {:induction false} EscapedReadsBack(value: string)
    ensures IsLine(Escaped(value)) && Unescaped(Escaped(value)) == OnOneLine(value)
  {
    EscapedThen(value, "");
    assert Escaped(value) + "" == Escaped(value);
    assert OnOneLine(value) + "" == OnOneLine(value);
  }

  function EscapedChar(ch: char): string {
    if IsSpecial(ch) then ['\\', ch] else if ch == '\n' then [' '] else [ch]
  }

  lemma {:induction false} EscapedThen(value: string, rest: string)
    ensures IsLine(Escaped(value)) && Unescaped(Escaped(value) + rest) == OnOneLine(value) + Unescaped(rest)
    decreases |value|
  {
    if value == "" {
      assert Escaped(value) + rest == rest;
    } else {
      var front, unit := value[..|value| - 1], EscapedChar(value[|value| - 1]);
      assert Escaped(value) == Escaped(front) + unit;
      Regroup(Escaped(front), unit, rest);
      EscapedThen(front, unit + rest);
      Regroup(OnOneLine(front), [unit[|unit| - 1]], Unescaped(rest));
    }
  }

  /** Each line followed by its line break. */
  function Unlines(lines: seq<string>): string {
    if lines == [] then "" else Unlines(lines[..|lines| - 1]) + lines[|lines| - 1] + "\n"
  }

  function MarkerLines(name: string, start: nat, end: nat): seq<string> {
    ["", "[CHAPTER]", "TIMEBASE=1/1000", "START=" + Decimal(start), "END=" + Decimal(end), "title=" + Escaped(name)]
  }

  function HeaderLines(title: Option<string>): seq<string> {
    [";FFMETADATA1"] + if title.Some? then ["title=" + Escaped(title.value)] else []
  }

  function Min(a: nat, b: nat): nat {
    if a <= b then a else b
  }

  /** The markers of the first `k` chapters. */
  function Markers(names: seq<string>, durations: seq<nat>, gapMs: nat, k: nat): seq<string>
    requires k <= |names| && k <= |durations|
  {
    if k == 0 then []
    else
      var start := PlayedBefore(durations, gapMs, k - 1);
      Markers(names, durations, gapMs, k - 1) + MarkerLines(names[k - 1], start, start + durations[k - 1])
  }

  /** The lines of the metadata file. */
  function MetadataLines(title: Option<string>, names: seq<string>, durations: seq<nat>, gapMs: nat): seq<string> {
    HeaderLines(title) + Markers(names, durations, gapMs, Min(|names|, |durations|))
  }

  method BuildFfmetadata(title: Option<string>, names: seq<string>, durations: seq<nat>, gapMs: nat) returns (out: string)
    ensures out == Unlines(MetadataLines(title, names, durations, gapMs))
  {
    out := Header(title);
    var start := 0;
    for index := 0 to Min(|names|, |durations|)
      invariant out == Unlines(HeaderLines(title) + Markers(names, durations, gapMs, index))
      invariant index < Min(|names|, |durations|) ==> start == PlayedBefore(durations, gapMs, index)
    {
      var end := start + durations[index];
      out := AppendMarker(out, names[index], start, end);
      MarkerAppended(HeaderLines(title), Markers(names, durations, gapMs, index), MarkerLines(names[index], start, end));
      start := end;
      if index + 1 < |names| {
        start := start + gapMs;
      }
    }
  }

  method Header(title: Option<string>) returns (out: string)
    ensures out == Unlines(HeaderLines(title) + [])
  {
    out := ";FFMETADATA1\n";
    HeaderText(title);
    assert HeaderLines(title) + [] == HeaderLines(title);
    if title.Some? {
      var escaped := EscapeFfmeta(title.value);
      out := out + ("title=" + escaped + "\n");
    }
  }

  /** The three pieces written for one chapter are its marker's lines. */
  method AppendMarker(text: string, name: string, start: nat, end: nat) returns (out: string)
    ensures out == text + Unlines(MarkerLines(name, start, end))
  {
    var escaped := EscapeFfmeta(name);
    out := text + "\n[CHAPTER]\nTIMEBASE=1/1000\n";
    out := out + ("START=" + Decimal(start) + "\nEND=" + Decimal(end) + "\n");
    out := out + ("title=" + escaped + "\n");
    MarkerText(name, start, end);
  }

  lemma MarkerAppended(header: seq<string>, markers: seq<string>, marker: seq<string>)
    ensures Unlines(header + markers) + Unlines(marker) == Unlines(header + (markers + marker))
  {
    Regroup(header, markers, marker);
    UnlinesConcat(header + markers, marker);
  }

  lemma {:induction false} UnlinesConcat(a: seq<string>, b: seq<string>)
    ensures Unlines(a + b) == Unlines(a) + Unlines(b)
    decreases |b|
  {
    if b == [] {
      assert a + b == a;
    } else {
      var front, last := b[..|b| - 1], b[|b| - 1];
      assert a + b == (a + front) + [last];
      UnlinesConcat(a, front);
      assert Unlines(a) + Unlines(front) + last + "\n" == Unlines(a) + (Unlines(front) + last + "\n");
    }
  }

  lemma OneLine(x: string)
    ensures Unlines([x]) == x + "\n"
  {
    assert [] + [x] == [x];
  }

  lemma TwoLines(x: string, y: string)
    ensures Unlines([x, y]) == x + "\n" + y + "\n"
  {
    OneLine(x);
    assert [x] + [y] == [x, y];
  }

  lemma ThreeLines(x: string, y: string, z: string)
    ensures Unlines([x, y, z]) == x + "\n" + y + "\n" + z + "\n"
  {
    TwoLines(x, y);
    assert [x, y] + [z] == [x, y, z];
  }

  lemma HeaderText(title: Option<string>)
    ensures Unlines(HeaderLines(title)) == if title.Some? then ";FFMETADATA1\n" + ("title=" + Escaped(title.value) + "\n") else ";FFMETADATA1\n"
  {
    assert ";FFMETADATA1" + "\n" == ";FFMETADATA1\n";
    OneLine(";FFMETADATA1");
    if title.Some? {
      var line := "title=" + Escaped(title.value);
      UnlinesConcat([";FFMETADATA1"], [line]);
      OneLine(line);
    } else {
      assert [";FFMETADATA1"] + [] == [";FFMETADATA1"];
    }
  }

  lemma MarkerText(name: string, start: nat, end: nat)
    ensures Unlines(MarkerLines(name, start, end))
         == "\n[CHAPTER]\nTIMEBASE=1/1000\n" + ("START=" + Decimal(start) + "\nEND=" + Decimal(end) + "\n") + ("title=" + Escaped(name) + "\n")
  {
    var x, y, z := "START=" + Decimal(start), "END=" + Decimal(end), "title=" + Escaped(name);
    MarkerLinesGrouped("", "[CHAPTER]", "TIMEBASE=1/1000", x, y, z);
  }

  lemma MarkerLinesGrouped(a: string, b: string, c: string, x: string, y: string, z: string)
    ensures Unlines([a, b, c, x, y, z]) == (a + "\n" + b + "\n" + c + "\n") + (x + "\n" + y + "\n") + (z + "\n")
  {
    assert [a, b, c, x, y, z] == [a, b, c] + [x, y] + [z];
    UnlinesConcat([a, b, c] + [x, y], [z]);
    UnlinesConcat([a, b, c], [x, y]);
    ThreeLines(a, b, c);
    TwoLines(x, y);
    OneLine(z);
  }

  // ----- reading the file back -----

  /** Where the first line of `s` ends. */
  function BreakAt(s: string): (k: nat)
    ensures k <= |s| && IsLine(s[..k]) && (k < |s| ==> s[k] == '\n')
  {
    if s == "" || s[0] == '\n' then 0
    else
      var k := BreakAt(s[1..]);
      assert s[..k + 1] == [s[0]] + s[1..][..k];
      k + 1
  }

  function TextLines(s: string): seq<string> {
    if s == "" then []
    else if BreakAt(s) == |s| then [s]
    else [s[..BreakAt(s)]] + TextLines(s[BreakAt(s) + 1..])
  }

  ghost predicate AreLines(lines: seq<string>) {
    forall k | 0 <= k < |lines| :: IsLine(lines[k])
  }

  lemma {:induction false} UnlinesReadBack(lines: seq<string>)
    requires AreLines(lines)
    ensures TextLines(Unlines(lines)) == lines
  {
    if lines != [] {
      var first, rest := lines[0], lines[1..];
      assert lines == [first] + rest;
      UnlinesConcat([first], rest);
      OneLine(first);
      UnlinesReadBack(rest);
      FirstLine(first, Unlines(rest));
    }
  }

  lemma FirstLine(first: string, rest: string)
    requires IsLine(first)
    ensures TextLines(first + "\n" + rest) == [first] + TextLines(rest)
  {
    var s := first + "\n" + rest;
    BreakAfter(first, "\n" + rest);
    assert s == first + ("\n" + rest);
    assert s[..|first|] == first && s[|first| + 1..] == rest;
  }

  lemma {:induction false} BreakAfter(first: string, rest: string)
    requires IsLine(first) && rest != "" && rest[0] == '\n'
    ensures BreakAt(first + rest) == |first|
  {
    if first == "" {
      assert first + rest == rest;
    } else {
      assert (first + rest)[1..] == first[1..] + rest;
      BreakAfter(first[1..], rest);
    }
  }

  lemma MarkerIsLines(name: string, start: nat, end: nat)
    ensures AreLines(MarkerLines(name, start, end))
  {
    EscapedReadsBack(name);
  }

  lemma {:induction false} MetadataAreLines(title: Option<string>, names: seq<string>, durations: seq<nat>, gapMs: nat, k: nat)
    requires k <= |names| && k <= |durations|
    ensures AreLines(HeaderLines(title) + Markers(names, durations, gapMs, k))
  {
    if k == 0 {
      if title.Some? {
        EscapedReadsBack(title.value);
      }
      assert HeaderLines(title) + [] == HeaderLines(title);
    } else {
      var start := PlayedBefore(durations, gapMs, k - 1);
      MetadataAreLines(title, names, durations, gapMs, k - 1);
      MarkerIsLines(names[k - 1], start, start + durations[k - 1]);
      Regroup(HeaderLines(title), Markers(names, durations, gapMs, k - 1), MarkerLines(names[k - 1], start, start + durations[k - 1]));
    }
  }

  /** Chapter `k`'s six lines stand where they should. */
  lemma {:induction false} MarkerAt(names: seq<string>, durations: seq<nat>, gapMs: nat, n: nat, k: nat)
    requires n <= |names| && n <= |durations|
    ensures |Markers(names, durations, gapMs, n)| == 6 * n
    ensures k < n ==>
      var start := PlayedBefore(durations, gapMs, k);
      Markers(names, durations, gapMs, n)[6 * k..6 * k + 6] == MarkerLines(names[k], start, start + durations[k])
  {
    if n > 0 {
      MarkerAt(names, durations, gapMs, n - 1, k);
    }
  }

  function Count(lines: seq<string>, line: string): nat {
    if lines == [] then 0 else Count(lines[..|lines| - 1], line) + if lines[|lines| - 1] == line then 1 else 0
  }

  lemma {:induction false} CountConcat(a: seq<string>, b: seq<string>, line: string)
    ensures Count(a + b, line) == Count(a, line) + Count(b, line)
    decreases |b|
  {
    if b == [] {
      assert a + b == a;
    } else {
      assert (a + b)[..|a + b| - 1] == a + b[..|b| - 1];
      CountConcat(a, b[..|b| - 1], line);
    }
  }

  lemma {:induction false} CountNone(lines: seq<string>, line: string)
    requires forall k | 0 <= k < |lines| :: lines[k] != line
    ensures Count(lines, line) == 0
  {
    if lines != [] {
      CountNone(lines[..|lines| - 1], line);
    }
  }

  lemma MarkerOpensOnce(name: string, start: nat, end: nat)
    ensures Count(MarkerLines(name, start, end), "[CHAPTER]") == 1
  {
    var open := "[CHAPTER]";
    var before, after := [""], ["TIMEBASE=1/1000", "START=" + Decimal(start), "END=" + Decimal(end), "title=" + Escaped(name)];
    assert MarkerLines(name, start, end) == before + [open] + after;
    assert after[0][0] == 'T' && after[1][0] == 'S' && after[2][0] == 'E' && after[3][0] == 't';
    CountNone(before, open);
    CountNone(after, open);
    CountConcat(before + [open], after, open);
    CountConcat(before, [open], open);
    assert Count([open], open) == Count([open][..0], open) + 1;
  }

  lemma {:induction false} MarkersOpenChapters(names: seq<string>, durations: seq<nat>, gapMs: nat, n: nat)
    requires n <= |names| && n <= |durations|
    ensures Count(Markers(names, durations, gapMs, n), "[CHAPTER]") == n
  {
    if n > 0 {
      var start := PlayedBefore(durations, gapMs, n - 1);
      MarkersOpenChapters(names, durations, gapMs, n - 1);
      MarkerOpensOnce(names[n - 1], start, start + durations[n - 1]);
      CountConcat(Markers(names, durations, gapMs, n - 1), MarkerLines(names[n - 1], start, start + durations[n - 1]), "[CHAPTER]");
    }
  }

  lemma HeaderOpensNone(title: Option<string>)
    ensures Count(HeaderLines(title), "[CHAPTER]") == 0
  {
    var lines := HeaderLines(title);
    assert lines[0][0] == ';';
    assert title.Some? ==> lines[1][0] == 't';
    CountNone(lines, "[CHAPTER]");
  }

  /** Whatever the titles hold, the file reads back as its lines: no title can break a line, and there
      are as many chapter sections as chapters. */
  lemma MetadataReadsBack(title: Option<string>, names: seq<string>, durations: seq<nat>, gapMs: nat)
    ensures TextLines(Unlines(MetadataLines(title, names, durations, gapMs))) == MetadataLines(title, names, durations, gapMs)
    ensures Count(MetadataLines(title, names, durations, gapMs), "[CHAPTER]") == Min(|names|, |durations|)
  {
    var n := Min(|names|, |durations|);
    MetadataAreLines(title, names, durations, gapMs, n);
    UnlinesReadBack(MetadataLines(title, names, durations, gapMs));
    HeaderOpensNone(title);
    MarkersOpenChapters(names, durations, gapMs, n);
    CountConcat(HeaderLines(title), Markers(names, durations, gapMs, n), "[CHAPTER]");
  }

  // ----- the markers and the play order, together -----

  /** The lines from `at` on open a chapter that plays from `start` to `end`. */
  ghost predicate MarkerStands(lines: seq<string>, at: nat, start: nat, end: nat) {
    && |lines| >= at + 6
    && lines[at + 1] == "[CHAPTER]"
    && lines[at + 3] == "START=" + Decimal(start)
    && lines[at + 4] == "END=" + Decimal(end)
  }

  /** In the metadata file, chapter `k` starts after as many milliseconds as the entries listed before it
      play for, and ends when it has played. */
  ghost predicate MarkerMatchesPlay(lines: seq<string>, header: nat, entries: seq<string>, files: seq<string>, gap: Option<string>,
                                    lengthOf: string -> nat, k: nat)
    requires k < |files|
  {
    var before := EntriesBefore(files, gap, k);
    && MarkerStands(lines, header + 6 * k, TotalLength(before, lengthOf), TotalLength(before + [files[k]], lengthOf))
    && before + [files[k]] <= entries
  }

  lemma MarkerMatches(title: Option<string>, names: seq<string>, files: seq<string>, durations: seq<nat>, gap: Option<string>, gapMs: nat,
                      lengthOf: string -> nat, k: nat)
    requires |names| == |files| == |durations| && k < |files|
    requires forall i | 0 <= i < |files| :: lengthOf(files[i]) == durations[i]
    requires if gap.Some? then lengthOf(gap.value) == gapMs else gapMs == 0
    ensures MarkerMatchesPlay(MetadataLines(title, names, durations, gapMs), |HeaderLines(title)|, EntriesBefore(files, gap, |files|),
                              files, gap, lengthOf, k)
  {
    var start := PlayedBefore(durations, gapMs, k);
    assert EntryPlays(files, gap, lengthOf, k, start, start + durations[k]) by {
      EntryPlaysAtMarker(files, durations, gap, gapMs, lengthOf, k);
    }
    assert MarkerStands(MetadataLines(title, names, durations, gapMs), |HeaderLines(title)| + 6 * k, start, start + durations[k]) by {
      MarkerInFile(title, names, durations, gapMs, k);
    }
  }

  /** Chapter `k` is listed so that it plays from `start` to `end`. */
  ghost predicate EntryPlays(files: seq<string>, gap: Option<string>, lengthOf: string -> nat, k: nat, start: nat, end: nat)
    requires k < |files|
  {
    var before := EntriesBefore(files, gap, k);
    && TotalLength(before, lengthOf) == start && TotalLength(before + [files[k]], lengthOf) == end
    && before + [files[k]] <= EntriesBefore(files, gap, |files|)
  }

  lemma EntryPlaysAtMarker(files: seq<string>, durations: seq<nat>, gap: Option<string>, gapMs: nat, lengthOf: string -> nat, k: nat)
    requires |files| == |durations| && k < |files|
    requires forall i | 0 <= i < |files| :: lengthOf(files[i]) == durations[i]
    requires if gap.Some? then lengthOf(gap.value) == gapMs else gapMs == 0
    ensures EntryPlays(files, gap, lengthOf, k, PlayedBefore(durations, gapMs, k), PlayedBefore(durations, gapMs, k) + durations[k])
  {
    ChapterStartsAtItsMarker(files, gap, durations, gapMs, lengthOf, k);
    OneEntryMore(EntriesBefore(files, gap, k), files[k], lengthOf);
  }

  lemma OneEntryMore(entries: seq<string>, file: string, lengthOf: string -> nat)
    ensures TotalLength(entries + [file], lengthOf) == TotalLength(entries, lengthOf) + lengthOf(file)
  {
    assert (entries + [file])[..|entries|] == entries;
  }

  lemma MarkerInFile(title: Option<string>, names: seq<string>, durations: seq<nat>, gapMs: nat, k: nat)
    requires |names| == |durations| && k < |names|
    ensures
      MarkerStands(MetadataLines(title, names, durations, gapMs), |HeaderLines(title)| + 6 * k,
                   PlayedBefore(durations, gapMs, k), PlayedBefore(durations, gapMs, k) + durations[k])
  {
    var start := PlayedBefore(durations, gapMs, k);
    var header, markers, marker := HeaderLines(title), Markers(names, durations, gapMs, |names|), MarkerLines(names[k], start, start + durations[k]);
    MarkerAt(names, durations, gapMs, |names|, k);
    assert (header + markers)[|header| + 6 * k + 1] == marker[1];
    assert (header + markers)[|header| + 6 * k + 3] == marker[3];
    assert (header + markers)[|header| + 6 * k + 4] == marker[4];
  }

  /** The book's metadata and play list, from the same chapters and the same gap. */
  method DescribeBook(title: Option<string>, names: seq<string>, files: seq<string>, durations: seq<nat>, gaps: ConcatGaps,
                      gapChapterMs: nat, ghost lengthOf: string -> nat)
    returns (metadata: string, entries: seq<string>)
    requires |names| == |files| == |durations|
    requires forall i | 0 <= i < |files| :: lengthOf(files[i]) == durations[i]
    requires gaps.chapter.Some? ==> lengthOf(gaps.chapter.value) == gapChapterMs
    ensures forall k | 0 <= k < |files| ::
      MarkerMatchesPlay(TextLines(metadata), |HeaderLines(title)|, entries, files, gaps.chapter, lengthOf, k)
    ensures Count(TextLines(metadata), "[CHAPTER]") == |files|
  {
    var gapMs := if gaps.chapter.Some? then gapChapterMs else 0;
    metadata := BuildFfmetadata(title, names, durations, gapMs);
    entries := BuildBookConcatEntries(files, gaps.chapter);
    MetadataReadsBack(title, names, durations, gapMs);
    forall k | 0 <= k < |files|
      ensures MarkerMatchesPlay(TextLines(metadata), |HeaderLines(title)|, entries, files, gaps.chapter, lengthOf, k)
    {
      MarkerMatches(title, names, files, durations, gaps.chapter, gapMs, lengthOf, k);
    }
  }
}
