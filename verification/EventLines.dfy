/** The lines of an event log, the events they give and the lines counted as corrupt
    (crates/bookforge-cli/src/eventlog.rs:17-24, 90-160). */
module EventLines {
  import opened Options
  import opened Strings
  import opened Selection

  const MAX_EVENT_LOG_LINE_BYTES: nat := 256 * 1024

  newtype Byte = b: int | 0 <= b < 256

  const NEWLINE: Byte := 10

  predicate IsAsciiWhitespace(b: Byte) {
    b == 9 || b == 10 || b == 12 || b == 13 || b == 32
  }

  // ----- the batch reading of a whole stream -----

  /** The lines completed by a newline in `stream`, `begun` being what the first of them started with. */
  function LinesFrom(begun: seq<Byte>, stream: seq<Byte>): seq<seq<Byte>>
    decreases stream
  {
    if stream == [] then []
    else if stream[0] == NEWLINE then [begun] + LinesFrom([], stream[1..])
    else LinesFrom(begun + [stream[0]], stream[1..])
  }

  /** What follows the last newline. */
  function TailFrom(begun: seq<Byte>, stream: seq<Byte>): seq<Byte>
    decreases stream
  {
    if stream == [] then begun
    else if stream[0] == NEWLINE then TailFrom([], stream[1..])
    else TailFrom(begun + [stream[0]], stream[1..])
  }

  function Lines(stream: seq<Byte>): seq<seq<Byte>> {
    LinesFrom([], stream)
  }

  function Tail(stream: seq<Byte>): seq<Byte> {
    TailFrom([], stream)
  }

  type Parser<!Event> = seq<Byte> -> Option<Event>

  predicate Oversized(line: seq<Byte>) {
    |line| > MAX_EVENT_LOG_LINE_BYTES
  }

  predicate AllWhitespace(line: seq<Byte>) {
    forall k | 0 <= k < |line| :: IsAsciiWhitespace(line[k])
  }

  function LineEvents<Event>(parse: Parser<Event>, line: seq<Byte>): seq<Event> {
    if Oversized(line) || line == [] || parse(line).None? then [] else [parse(line).value]
  }

  /** 1 for a line that must be counted as corrupt. */
  function LineSkips<Event>(parse: Parser<Event>, line: seq<Byte>): nat {
    if Oversized(line) || line == [] || parse(line).Some? || AllWhitespace(line) then 0 else 1
  }

  function Events<Event>(parse: Parser<Event>, lines: seq<seq<Byte>>): seq<Event> {
    if lines == [] then [] else LineEvents(parse, lines[0]) + Events(parse, lines[1..])
  }

  function Skips<Event>(parse: Parser<Event>, lines: seq<seq<Byte>>): nat {
    if lines == [] then 0 else LineSkips(parse, lines[0]) + Skips(parse, lines[1..])
  }

  // ----- the batch reading says what it should -----

  function Terminated(lines: seq<seq<Byte>>): seq<Byte> {
    if lines == [] then [] else lines[0] + [NEWLINE] + Terminated(lines[1..])
  }

  /** The lines, each closed by a newline, and the tail are the stream; none holds a newline itself. */
  lemma {:induction false} LinesAreTheStream(begun: seq<Byte>, stream: seq<Byte>)
    requires NEWLINE !in begun
    ensures begun + stream == Terminated(LinesFrom(begun, stream)) + TailFrom(begun, stream)
    ensures NEWLINE !in TailFrom(begun, stream)
    ensures forall k | 0 <= k < |LinesFrom(begun, stream)| :: NEWLINE !in LinesFrom(begun, stream)[k]
    decreases stream
  {
    if stream == [] {
      assert begun + stream == begun;
    } else if stream[0] == NEWLINE {
      LinesAreTheStream([], stream[1..]);
      assert [] + stream[1..] == stream[1..];
      assert begun + stream == begun + [NEWLINE] + stream[1..];
      OneLineMore(begun, LinesFrom([], stream[1..]), TailFrom([], stream[1..]));
    } else {
      LinesAreTheStream(begun + [stream[0]], stream[1..]);
      assert begun + stream == begun + [stream[0]] + stream[1..];
    }
  }

  lemma OneLineMore(line: seq<Byte>, lines: seq<seq<Byte>>, tail: seq<Byte>)
    ensures Terminated([line] + lines) + tail == line + [NEWLINE] + (Terminated(lines) + tail)
  {
    assert ([line] + lines)[1..] == lines;
    Regroup(line + [NEWLINE], Terminated(lines), tail);
  }

  // ----- reading in pieces -----

  lemma {:induction false} LinesOfPieces(begun: seq<Byte>, a: seq<Byte>, b: seq<Byte>)
    ensures LinesFrom(begun, a + b) == LinesFrom(begun, a) + LinesFrom(TailFrom(begun, a), b)
    ensures TailFrom(begun, a + b) == TailFrom(TailFrom(begun, a), b)
    decreases a
  {
    if a == [] {
      assert a + b == b;
    } else {
      assert (a + b)[1..] == a[1..] + b;
      LinesOfPieces(if a[0] == NEWLINE then [] else begun + [a[0]], a[1..], b);
    }
  }

  lemma {:induction false} EventsOfPieces<Event>(parse: Parser<Event>, a: seq<seq<Byte>>, b: seq<seq<Byte>>)
    ensures Events(parse, a + b) == Events(parse, a) + Events(parse, b)
    ensures Skips(parse, a + b) == Skips(parse, a) + Skips(parse, b)
  {
    if a == [] {
      assert a + b == b;
    } else {
      assert (a + b)[1..] == a[1..] + b;
      EventsOfPieces(parse, a[1..], b);
      Regroup(LineEvents(parse, a[0]), Events(parse, a[1..]), Events(parse, b));
    }
  }

  lemma {:induction false} NoNewline(begun: seq<Byte>, bytes: seq<Byte>)
    requires NEWLINE !in bytes
    ensures LinesFrom(begun, bytes) == [] && TailFrom(begun, bytes) == begun + bytes
    decreases bytes
  {
    if bytes == [] {
      assert begun + bytes == begun;
    } else {
      NoNewline(begun + [bytes[0]], bytes[1..]);
      assert begun + bytes == begun + [bytes[0]] + bytes[1..];
    }
  }

  /** A newline behind newline-free bytes completes exactly one line. */
  lemma OneLine(begun: seq<Byte>, fragment: seq<Byte>, rest: seq<Byte>)
    requires NEWLINE !in fragment
    ensures LinesFrom(begun, fragment + [NEWLINE] + rest) == [begun + fragment] + LinesFrom([], rest)
    ensures TailFrom(begun, fragment + [NEWLINE] + rest) == TailFrom([], rest)
  {
    NoNewline(begun, fragment);
    assert fragment + [NEWLINE] + rest == fragment + ([NEWLINE] + rest);
    LinesOfPieces(begun, fragment, [NEWLINE] + rest);
    assert ([NEWLINE] + rest)[1..] == rest;
  }

  // ----- the lines as stretches of the stream -----

  /** A line of the log and where its newline stands. */
  datatype LogLine = LogLine(bytes: seq<Byte>, newline: nat)

  predicate IsNewline(b: Byte) {
    b == NEWLINE
  }

  function Between(stream: seq<Byte>, lo: nat, hi: nat): seq<Byte> {
    if lo <= hi <= |stream| then stream[lo..hi] else []
  }

  /** The bytes before each of the given newlines, back to the newline before it or to the begin of the stream. */
  function LogLines(stream: seq<Byte>, newlines: seq<nat>): seq<LogLine> {
    seq(|newlines|, k requires 0 <= k < |newlines| => LineAt(stream, newlines, k))
  }

  function LineAt(stream: seq<Byte>, newlines: seq<nat>, k: nat): LogLine
    requires k < |newlines|
  {
    LogLine(Between(stream, LineStart(newlines, k), newlines[k]), newlines[k])
  }

  function LineStart(newlines: seq<nat>, k: nat): nat
    requires k <= |newlines|
  {
    if k == 0 then 0 else newlines[k - 1] + 1
  }

  /** A line with its newline from `lo` up to `hi` that gives an event: it is not empty, within the limit and parses. */
  function GivesEvent<Event>(parse: Parser<Event>, lo: nat, hi: nat): LogLine -> bool {
    (line: LogLine) => lo <= line.newline < hi && 0 < |line.bytes| <= MAX_EVENT_LOG_LINE_BYTES && parse(line.bytes).Some?
  }

  /** A line that must be counted: it is not empty, within the limit, does not parse and holds more than whitespace. */
  function IsCorrupt<Event>(parse: Parser<Event>): LogLine -> bool {
    (line: LogLine) =>
      && 0 < |line.bytes| <= MAX_EVENT_LOG_LINE_BYTES && parse(line.bytes).None?
      && exists k :: 0 <= k < |line.bytes| && !IsAsciiWhitespace(line.bytes[k])
  }

  /** `events` are the parsed lines whose newlines stand from `lo` up to `hi` in the stream, one event each, in order. */
  ghost predicate AreEventsOf<Event>(parse: Parser<Event>, stream: seq<Byte>, lo: nat, hi: nat, events: seq<Event>) {
    exists newlines, picks | PicksExactly(stream, IsNewline, newlines) ::
      PickedEvents(parse, LogLines(stream, newlines), GivesEvent(parse, lo, hi), events, picks)
  }

  ghost predicate PickedEvents<Event>(parse: Parser<Event>, lines: seq<LogLine>, wanted: LogLine -> bool, events: seq<Event>, picks: seq<nat>) {
    && PicksExactly(lines, wanted, picks) && |events| == |picks|
    && forall i | 0 <= i < |picks| :: parse(lines[picks[i]].bytes) == Some(events[i])
  }

  /** As many lines of the stream are corrupt as `count` says. */
  ghost predicate IsCorruptCount<Event>(parse: Parser<Event>, stream: seq<Byte>, count: nat) {
    exists newlines, picks | PicksExactly(stream, IsNewline, newlines) ::
      PicksExactly(LogLines(stream, newlines), IsCorrupt(parse), picks) && count == |picks|
  }

  // ----- the batch reading is made of these stretches -----

  ghost predicate SameBytes(items: seq<LogLine>, lines: seq<seq<Byte>>) {
    |items| == |lines| && forall k | 0 <= k < |items| :: items[k].bytes == lines[k]
  }

  /** The newlines cut the stream into its lines and its tail. */
  ghost predicate Delimits(stream: seq<Byte>, newlines: seq<nat>) {
    && PicksExactly(stream, IsNewline, newlines)
    && SameBytes(LogLines(stream, newlines), Lines(stream))
    && Tail(stream) == Between(stream, LineStart(newlines, |newlines|), |stream|) && LineStart(newlines, |newlines|) <= |stream|
  }

  lemma BetweenOfLonger(stream: seq<Byte>, b: Byte, lo: nat, hi: nat)
    requires hi <= |stream|
    ensures Between(stream + [b], lo, hi) == Between(stream, lo, hi)
  {
    if lo <= hi {
      assert (stream + [b])[lo..hi] == stream[lo..hi];
    }
  }

  lemma LinesOfLonger(stream: seq<Byte>, b: Byte, newlines: seq<nat>)
    requires forall k | 0 <= k < |newlines| :: newlines[k] < |stream|
    ensures LogLines(stream + [b], newlines) == LogLines(stream, newlines)
  {
    var longer := LogLines(stream + [b], newlines);
    forall k | 0 <= k < |newlines| ensures longer[k] == LogLines(stream, newlines)[k] {
      BetweenOfLonger(stream, b, LineStart(newlines, k), newlines[k]);
    }
  }

  lemma OneLineLonger(stream: seq<Byte>, newlines: seq<nat>, at: nat)
    ensures LogLines(stream, newlines + [at])
         == LogLines(stream, newlines) + [LogLine(Between(stream, LineStart(newlines, |newlines|), at), at)]
  {
    var more := newlines + [at];
    forall k: nat | k < |newlines| ensures LineAt(stream, more, k) == LineAt(stream, newlines, k) {
      assert LineStart(more, k) == LineStart(newlines, k) && more[k] == newlines[k];
    }
    assert LineStart(more, |newlines|) == LineStart(newlines, |newlines|);
  }

  lemma NoNewPick(stream: seq<Byte>, b: Byte, newlines: seq<nat>)
    requires PicksExactly(stream, IsNewline, newlines) && b != NEWLINE
    ensures PicksExactly(stream + [b], IsNewline, newlines)
  {
    PicksConcat(stream, [b], IsNewline, newlines, []);
    assert newlines + Shifted([], |stream|) == newlines;
  }

  lemma OtherByte(stream: seq<Byte>, b: Byte, newlines: seq<nat>)
    requires Delimits(stream, newlines) && b != NEWLINE
    ensures Delimits(stream + [b], newlines)
  {
    NoNewPick(stream, b, newlines);
    LinesOfLonger(stream, b, newlines);
    SameLines(stream, b);
    var lo := LineStart(newlines, |newlines|);
    assert (stream + [b])[lo..|stream| + 1] == stream[lo..|stream|] + [b];
  }

  lemma SameLines(stream: seq<Byte>, b: Byte)
    requires b != NEWLINE
    ensures Lines(stream + [b]) == Lines(stream) && Tail(stream + [b]) == Tail(stream) + [b]
  {
    LinesOfPieces([], stream, [b]);
    NoNewline(Tail(stream), [b]);
    assert Lines(stream) + [] == Lines(stream);
  }

  lemma OneNewline(stream: seq<Byte>, newlines: seq<nat>)
    requires Delimits(stream, newlines)
    ensures Delimits(stream + [NEWLINE], newlines + [|stream|])
  {
    NewPick(stream, newlines);
    LineOfNewline(stream, newlines);
    LinesOfPieces([], stream, [NEWLINE]);
    OneLine(Tail(stream), [], []);
    assert [] + [NEWLINE] + [] == [NEWLINE] && Tail(stream) + [] == Tail(stream);
  }

  lemma NewPick(stream: seq<Byte>, newlines: seq<nat>)
    requires PicksExactly(stream, IsNewline, newlines)
    ensures PicksExactly(stream + [NEWLINE], IsNewline, newlines + [|stream|])
  {
    PicksConcat(stream, [NEWLINE], IsNewline, newlines, [0]);
    assert newlines + Shifted([0], |stream|) == newlines + [|stream|];
  }

  lemma LineOfNewline(stream: seq<Byte>, newlines: seq<nat>)
    requires forall k | 0 <= k < |newlines| :: newlines[k] < |stream|
    ensures LogLines(stream + [NEWLINE], newlines + [|stream|])
         == LogLines(stream, newlines) + [LogLine(Between(stream, LineStart(newlines, |newlines|), |stream|), |stream|)]
  {
    LinesOfLonger(stream, NEWLINE, newlines);
    BetweenOfLonger(stream, NEWLINE, LineStart(newlines, |newlines|), |stream|);
    OneLineLonger(stream + [NEWLINE], newlines, |stream|);
  }

  lemma OneByteMore(stream: seq<Byte>, b: Byte, newlines: seq<nat>) returns (more: seq<nat>)
    requires Delimits(stream, newlines)
    ensures Delimits(stream + [b], more) && more == newlines + (if b == NEWLINE then [|stream|] else [])
  {
    if b == NEWLINE {
      more := newlines + [|stream|];
      OneNewline(stream, newlines);
    } else {
      more := newlines;
      OtherByte(stream, b, newlines);
      assert newlines + [] == newlines;
    }
  }

  lemma {:induction false} NewlinesOf(stream: seq<Byte>) returns (newlines: seq<nat>)
    ensures Delimits(stream, newlines)
  {
    if stream == [] {
      newlines := [];
    } else {
      var front, last := stream[..|stream| - 1], stream[|stream| - 1];
      assert front + [last] == stream;
      newlines := NewlinesOf(front);
      newlines := OneByteMore(front, last, newlines);
    }
  }

  /** The first `count` newlines stand before position `at`, the others do not. */
  ghost predicate Divides(newlines: seq<nat>, count: nat, at: nat) {
    count <= |newlines| && forall k | 0 <= k < |newlines| :: newlines[k] < at <==> k < count
  }

  lemma {:induction false} NewlinesBehind(before: seq<Byte>, bytes: seq<Byte>) returns (newlines: seq<nat>)
    ensures Delimits(before + bytes, newlines) && Divides(newlines, |Lines(before)|, |before|)
    decreases bytes
  {
    if bytes == [] {
      newlines := NewlinesOf(before);
      assert before + bytes == before;
    } else {
      var front, last := bytes[..|bytes| - 1], bytes[|bytes| - 1];
      assert (before + front) + [last] == before + bytes;
      newlines := NewlinesBehind(before, front);
      newlines := OneByteMore(before + front, last, newlines);
    }
  }

  // ----- the events and the count -----

  lemma {:induction false} EventsArePicked<Event>(parse: Parser<Event>, lo: nat, hi: nat, items: seq<LogLine>, lines: seq<seq<Byte>>)
    returns (picks: seq<nat>)
    requires SameBytes(items, lines) && forall k | 0 <= k < |items| :: lo <= items[k].newline < hi
    ensures PickedEvents(parse, items, GivesEvent(parse, lo, hi), Events(parse, lines), picks)
  {
    if items == [] {
      picks := [];
    } else {
      var first: seq<nat> := if GivesEvent(parse, lo, hi)(items[0]) then [0] else [];
      assert items[0].bytes == lines[0];
      assert PickedEvents(parse, [items[0]], GivesEvent(parse, lo, hi), LineEvents(parse, lines[0]), first);
      picks := EventsArePicked(parse, lo, hi, items[1..], lines[1..]);
      picks := PickedTogether(parse, GivesEvent(parse, lo, hi), [items[0]], LineEvents(parse, lines[0]), first,
                              items[1..], Events(parse, lines[1..]), picks);
      assert [items[0]] + items[1..] == items;
    }
  }

  lemma PickedTogether<Event>(parse: Parser<Event>, wanted: LogLine -> bool, a: seq<LogLine>, eventsA: seq<Event>, picksA: seq<nat>,
                              b: seq<LogLine>, eventsB: seq<Event>, picksB: seq<nat>)
    returns (picks: seq<nat>)
    requires PickedEvents(parse, a, wanted, eventsA, picksA) && PickedEvents(parse, b, wanted, eventsB, picksB)
    ensures PickedEvents(parse, a + b, wanted, eventsA + eventsB, picks)
  {
    picks := picksA + Shifted(picksB, |a|);
    PicksConcat(a, b, wanted, picksA, picksB);
    var items, events := a + b, eventsA + eventsB;
    forall i | 0 <= i < |picks| ensures parse(items[picks[i]].bytes) == Some(events[i]) {
      if i >= |picksA| {
        assert items[picks[i]] == b[picksB[i - |picksA|]];
      }
    }
  }

  lemma NoEventsBefore<Event>(parse: Parser<Event>, items: seq<LogLine>, lo: nat, hi: nat)
    requires forall k | 0 <= k < |items| :: items[k].newline < lo
    ensures PickedEvents(parse, items, GivesEvent(parse, lo, hi), [], [])
  {
  }

  /** Of lines the first `count` of which are complete before `lo`, only the later ones give their events. */
  lemma EventsOfLaterLines<Event>(parse: Parser<Event>, items: seq<LogLine>, count: nat, lines: seq<seq<Byte>>, lo: nat, hi: nat)
    returns (picks: seq<nat>)
    requires count <= |items| && SameBytes(items[count..], lines)
    requires forall k | 0 <= k < |items| :: (items[k].newline < lo <==> k < count) && items[k].newline < hi
    ensures PickedEvents(parse, items, GivesEvent(parse, lo, hi), Events(parse, lines), picks)
  {
    var first, later := items[..count], items[count..];
    assert first + later == items;
    forall k | 0 <= k < |later| ensures lo <= later[k].newline < hi {
      assert later[k] == items[count + k];
    }
    NoEventsBefore(parse, first, lo, hi);
    picks := EventsArePicked(parse, lo, hi, later, lines);
    picks := PickedTogether(parse, GivesEvent(parse, lo, hi), first, [], [], later, Events(parse, lines), picks);
    assert [] + Events(parse, lines) == Events(parse, lines);
  }

  /** The batch reading of the lines that `bytes` complete behind `before` gives the events of exactly these lines. */
  lemma NewEventsAreOfLines<Event>(parse: Parser<Event>, before: seq<Byte>, bytes: seq<Byte>)
    ensures AreEventsOf(parse, before + bytes, |before|, |before + bytes|, Events(parse, LinesFrom(Tail(before), bytes)))
  {
    var newlines := NewlinesBehind(before, bytes);
    LinesOfPieces([], before, bytes);
    var items, count := LogLines(before + bytes, newlines), |Lines(before)|;
    LaterBytes(items, Lines(before), LinesFrom(Tail(before), bytes));
    var picks := EventsOfLaterLines(parse, items, count, LinesFrom(Tail(before), bytes), |before|, |before + bytes|);
  }

  lemma LaterBytes(items: seq<LogLine>, first: seq<seq<Byte>>, later: seq<seq<Byte>>)
    requires SameBytes(items, first + later)
    ensures SameBytes(items[|first|..], later)
  {
  }

  lemma {:induction false} SkipsArePicked<Event>(parse: Parser<Event>, items: seq<LogLine>, lines: seq<seq<Byte>>) returns (picks: seq<nat>)
    requires SameBytes(items, lines)
    ensures PicksExactly(items, IsCorrupt(parse), picks) && Skips(parse, lines) == |picks|
  {
    if items == [] {
      picks := [];
    } else {
      var first: seq<nat> := if IsCorrupt(parse)(items[0]) then [0] else [];
      assert items[0].bytes == lines[0];
      assert LineSkips(parse, lines[0]) == |first|;
      var later := SkipsArePicked(parse, items[1..], lines[1..]);
      PicksConcat([items[0]], items[1..], IsCorrupt(parse), first, later);
      assert [items[0]] + items[1..] == items;
      picks := first + Shifted(later, 1);
    }
  }

  /** The batch reading counts exactly the corrupt lines. */
  lemma SkipsAreCorrupt<Event>(parse: Parser<Event>, stream: seq<Byte>)
    ensures IsCorruptCount(parse, stream, Skips(parse, Lines(stream)))
  {
    var newlines := NewlinesOf(stream);
    var picks := SkipsArePicked(parse, LogLines(stream, newlines), Lines(stream));
  }
}
