/** Following an append-only event log while it is written (crates/bookforge-cli/src/eventlog.rs:17-160). */
module EventLog {
  import opened Options
  import opened Strings
  import opened EventLines

  const MAX_EVENT_LOG_BYTES_PER_POLL: nat := 4 * 1024 * 1024
  const EVENT_LOG_READ_CHUNK_BYTES: nat := 64 * 1024

  // ----- what the polls are given -----

  datatype OpenOutcome = Opened | Missing | OpenFailed

  /** What one call of `read` gives; no bytes means the end of the log as it is. */
  datatype ReadResult = Data(bytes: seq<Byte>) | Failed

  /** No read gives more than a poll with `budget` bytes to go asks for. */
  predicate Fits(results: seq<ReadResult>, budget: nat) {
    results == [] || budget == 0 || results[0].Failed?
    || (|results[0].bytes| <= budget && |results[0].bytes| <= EVENT_LOG_READ_CHUNK_BYTES
        && Fits(results[1..], budget - |results[0].bytes|))
  }

  type Reads = results: seq<ReadResult> | Fits(results, MAX_EVENT_LOG_BYTES_PER_POLL)

  /** Outcomes of the calls that one poll makes. */
  datatype PollInput = PollInput(open: OpenOutcome, results: Reads)

  predicate Stops(results: seq<ReadResult>, budget: nat) {
    results == [] || budget == 0 || results[0].Failed? || results[0].bytes == []
  }

  /** The bytes read until the budget is spent, the log ends or a read fails. */
  function Taken(results: seq<ReadResult>, budget: nat): seq<Byte>
    requires Fits(results, budget)
  {
    if Stops(results, budget) then [] else results[0].bytes + Taken(results[1..], budget - |results[0].bytes|)
  }

  /** A read fails before the budget is spent or the log ends. */
  predicate Fails(results: seq<ReadResult>, budget: nat)
    requires Fits(results, budget)
  {
    if Stops(results, budget) then results != [] && budget > 0 && results[0].Failed?
    else Fails(results[1..], budget - |results[0].bytes|)
  }

  lemma {:induction false} TakenIsBounded(results: seq<ReadResult>, budget: nat)
    requires Fits(results, budget)
    ensures |Taken(results, budget)| <= budget
  {
    if !Stops(results, budget) {
      TakenIsBounded(results[1..], budget - |results[0].bytes|);
    }
  }

  // ----- what a sequence of polls delivers -----

  datatype PollError = CannotOpen | CannotRead

  /** Everything so far: whether the log is open, the bytes taken from it, the events that polls have returned. */
  datatype Progress<Event> = Progress(isOpen: bool, consumed: seq<Byte>, delivered: seq<Event>)

  function PollBytes(isOpen: bool, poll: PollInput): seq<Byte> {
    if isOpen || poll.open.Opened? then Taken(poll.results, MAX_EVENT_LOG_BYTES_PER_POLL) else []
  }

  function PollFails(isOpen: bool, poll: PollInput): bool {
    (isOpen || poll.open.Opened?) && Fails(poll.results, MAX_EVENT_LOG_BYTES_PER_POLL)
  }

  /** The events of the lines that `bytes` complete behind `before`. */
  function NewEvents<Event>(parse: Parser<Event>, before: seq<Byte>, bytes: seq<Byte>): seq<Event> {
    Events(parse, LinesFrom(Tail(before), bytes))
  }

  function PollResult<Event>(parse: Parser<Event>, before: Progress<Event>, poll: PollInput): Result<seq<Event>, PollError> {
    if !before.isOpen && poll.open.OpenFailed? then Err(CannotOpen)
    else if PollFails(before.isOpen, poll) then Err(CannotRead)
    else Ok(NewEvents(parse, before.consumed, PollBytes(before.isOpen, poll)))
  }

  function AfterPoll<Event>(parse: Parser<Event>, before: Progress<Event>, poll: PollInput): Progress<Event> {
    var result := PollResult(parse, before, poll);
    Progress(before.isOpen || poll.open.Opened?, before.consumed + PollBytes(before.isOpen, poll),
             before.delivered + if result.Ok? then result.value else [])
  }

  function Polled<Event>(parse: Parser<Event>, polls: seq<PollInput>): Progress<Event> {
    if polls == [] then Progress(false, [], [])
    else AfterPoll(parse, Polled(parse, polls[..|polls| - 1]), polls[|polls| - 1])
  }

  // ----- when a poll loses events -----

  predicate IsEvent<Event>(parse: Parser<Event>, line: seq<Byte>) {
    !Oversized(line) && line != [] && parse(line).Some?
  }

  /** A read of the poll fails after its earlier reads have completed a line that parses. */
  ghost predicate Loses<Event>(parse: Parser<Event>, before: Progress<Event>, poll: PollInput) {
    && PollFails(before.isOpen, poll)
    && exists line | line in LinesFrom(Tail(before.consumed), PollBytes(before.isOpen, poll)) :: IsEvent(parse, line)
  }

  lemma {:induction false} NoEventsIff<Event>(parse: Parser<Event>, lines: seq<seq<Byte>>)
    ensures Events(parse, lines) != [] <==> exists line | line in lines :: IsEvent(parse, line)
  {
    if lines != [] {
      NoEventsIff(parse, lines[1..]);
      assert forall line | line in lines :: line == lines[0] || line in lines[1..];
      if IsEvent(parse, lines[0]) {
        assert lines[0] in lines;
      }
    }
  }

  /** No poll of the list loses events. */
  ghost predicate NoneLost<Event>(parse: Parser<Event>, polls: seq<PollInput>) {
    polls == [] || (var front, last := polls[..|polls| - 1], polls[|polls| - 1];
      NoneLost(parse, front) && !Loses(parse, Polled(parse, front), last))
  }

  /** A loss is not made good by later polls. */
  lemma {:induction false} LossStays<Event>(parse: Parser<Event>, polls: seq<PollInput>, n: nat)
    requires n <= |polls| && NoneLost(parse, polls)
    ensures NoneLost(parse, polls[..n])
  {
    if n < |polls| {
      var front := polls[..|polls| - 1];
      assert front[..n] == polls[..n];
      LossStays(parse, front, n);
    } else {
      assert polls[..n] == polls;
    }
  }

  /** One more poll keeps up with the batch reading unless it loses events. */
  lemma PollKeepsUp<Event>(parse: Parser<Event>, before: Progress<Event>, poll: PollInput)
    ensures var after := AfterPoll(parse, before, poll);
      var found := NewEvents(parse, before.consumed, PollBytes(before.isOpen, poll));
      && Events(parse, Lines(after.consumed)) == Events(parse, Lines(before.consumed)) + found
      && (!Loses(parse, before, poll) ==> after.delivered == before.delivered + found)
      && (Loses(parse, before, poll) ==> after.delivered == before.delivered && found != [])
  {
    var bytes := PollBytes(before.isOpen, poll);
    LinesOfPieces([], before.consumed, bytes);
    EventsOfPieces(parse, Lines(before.consumed), LinesFrom(Tail(before.consumed), bytes));
    NoEventsIff(parse, LinesFrom(Tail(before.consumed), bytes));
  }

  /** The polls have returned all the events of what they took, or fewer. */
  ghost predicate Accounts<Event>(parse: Parser<Event>, progress: Progress<Event>, noneLost: bool) {
    if noneLost then progress.delivered == Events(parse, Lines(progress.consumed))
    else |progress.delivered| < |Events(parse, Lines(progress.consumed))|
  }

  lemma PollAccounts<Event>(parse: Parser<Event>, before: Progress<Event>, poll: PollInput, noneLost: bool)
    requires Accounts(parse, before, noneLost)
    ensures Accounts(parse, AfterPoll(parse, before, poll), noneLost && !Loses(parse, before, poll))
  {
    PollKeepsUp(parse, before, poll);
  }

  lemma {:induction false} RunAccounts<Event>(parse: Parser<Event>, polls: seq<PollInput>)
    ensures Accounts(parse, Polled(parse, polls), NoneLost(parse, polls))
  {
    if polls != [] {
      var front := polls[..|polls| - 1];
      RunAccounts(parse, front);
      PollAccounts(parse, Polled(parse, front), polls[|polls| - 1], NoneLost(parse, front));
    }
  }

  /** Over any sequence of polls, whatever the reads, the returned events are those of the batch reading of the bytes
      taken, if and only if no read fails after earlier reads of its poll have completed a line that parses. */
  lemma DeliveredIffNoneLost<Event>(parse: Parser<Event>, polls: seq<PollInput>)
    ensures Polled(parse, polls).delivered == Events(parse, Lines(Polled(parse, polls).consumed)) <==> NoneLost(parse, polls)
  {
    RunAccounts(parse, polls);
  }

  // ----- what the polls read and return, poll by poll -----

  function BytesOf(results: seq<ReadResult>): seq<seq<Byte>> {
    seq(|results|, i requires 0 <= i < |results| => if results[i].Data? then results[i].bytes else [])
  }

  /** The first `n` reads give bytes and leave budget before each of them; behind them the poll stops for want of budget,
      at the end of the log, or at a read that fails. */
  ghost predicate StopsBehind(results: seq<ReadResult>, budget: nat, n: nat) {
    && n <= |results|
    && (forall i | 0 <= i < n :: results[i].Data? && results[i].bytes != [] && |Flatten(BytesOf(results[..i]))| < budget)
    && (n == |results| || |Flatten(BytesOf(results[..n]))| == budget || results[n].Failed? || results[n].bytes == [])
  }

  /** A poll takes the bytes of its reads up to where it stops, and fails exactly if a failing read stops it. */
  lemma {:induction false} TakenUpToStop(results: seq<ReadResult>, budget: nat) returns (n: nat)
    requires Fits(results, budget)
    ensures StopsBehind(results, budget, n) && Taken(results, budget) == Flatten(BytesOf(results[..n]))
    ensures Fails(results, budget) <==> |Taken(results, budget)| < budget && n < |results| && results[n].Failed?
  {
    if Stops(results, budget) {
      n := 0;
    } else {
      var first, rest := results[0], results[1..];
      var m := TakenUpToStop(rest, budget - |first.bytes|);
      n := m + 1;
      forall i: nat | i <= m ensures Flatten(BytesOf(results[..i + 1])) == first.bytes + Flatten(BytesOf(rest[..i])) {
        FirstRead(results, i);
      }
      forall i | 0 <= i < n ensures results[i].Data? && results[i].bytes != [] && |Flatten(BytesOf(results[..i]))| < budget {
        if i > 0 {
          assert results[i] == rest[i - 1];
          FirstRead(results, i - 1);
        } else {
          assert BytesOf(results[..0]) == [];
        }
      }
      assert n < |results| ==> results[n] == rest[m];
    }
  }

  lemma FirstRead(results: seq<ReadResult>, i: nat)
    requires i < |results| && results[0].Data?
    ensures Flatten(BytesOf(results[..i + 1])) == results[0].bytes + Flatten(BytesOf(results[1..][..i]))
  {
    var taken := BytesOf(results[..i + 1]);
    assert taken[1..] == BytesOf(results[1..][..i]);
  }

  /** Some poll up to number `i` has opened the log. */
  ghost predicate OpenIn(polls: seq<PollInput>, i: nat) {
    exists j :: 0 <= j <= i && j < |polls| && polls[j].open.Opened?
  }

  /** The bytes of each poll: none before the log is open. */
  ghost function TakenBy(polls: seq<PollInput>): seq<seq<Byte>> {
    seq(|polls|, i requires 0 <= i < |polls| => if OpenIn(polls, i) then Taken(polls[i].results, MAX_EVENT_LOG_BYTES_PER_POLL) else [])
  }

  ghost predicate NoReadFails(polls: seq<PollInput>) {
    forall i | 0 <= i < |polls| && OpenIn(polls, i) :: !Fails(polls[i].results, MAX_EVENT_LOG_BYTES_PER_POLL)
  }

  lemma OpenInFront(polls: seq<PollInput>, i: nat)
    requires i + 1 < |polls|
    ensures OpenIn(polls, i) <==> OpenIn(polls[..|polls| - 1], i)
  {
    var front := polls[..|polls| - 1];
    assert forall j | 0 <= j < |front| :: front[j] == polls[j];
    if OpenIn(polls, i) {
      var j :| 0 <= j <= i && polls[j].open.Opened?;
      assert front[j].open.Opened?;
    }
  }

  /** The log is open once a poll has opened it, and the polls since then have taken exactly the bytes of their reads. */
  lemma {:induction false} ConsumedIsRead<Event>(parse: Parser<Event>, polls: seq<PollInput>)
    ensures Polled(parse, polls).isOpen <==> OpenIn(polls, |polls|)
    ensures Polled(parse, polls).consumed == Flatten(TakenBy(polls))
  {
    if polls != [] {
      var n := |polls| - 1;
      var front, last := polls[..n], polls[n];
      ConsumedIsRead(parse, front);
      OpenOneMore(polls);
      var bytes := PollBytes(Polled(parse, front).isOpen, last);
      TakenByOneMore(polls);
      FlattenConcat(TakenBy(front), [bytes]);
      FlattenOne(bytes);
    }
  }

  lemma TakenByOneMore(polls: seq<PollInput>)
    requires polls != []
    ensures var n: nat := |polls| - 1;
      TakenBy(polls) == TakenBy(polls[..n]) + [if OpenIn(polls, n) then Taken(polls[n].results, MAX_EVENT_LOG_BYTES_PER_POLL) else []]
  {
    var n := |polls| - 1;
    var front := polls[..n];
    forall i: nat | i < n ensures TakenBy(polls)[i] == TakenBy(front)[i] {
      OpenInFront(polls, i);
      assert front[i] == polls[i];
    }
  }

  lemma OpenOneMore(polls: seq<PollInput>)
    requires polls != []
    ensures var n: nat := |polls| - 1;
      && (OpenIn(polls, n) <==> OpenIn(polls[..n], n) || polls[n].open.Opened?)
      && (OpenIn(polls, |polls|) <==> OpenIn(polls, n))
  {
    var front := polls[..|polls| - 1];
    assert forall j | 0 <= j < |front| :: front[j] == polls[j];
    if OpenIn(front, |front|) {
      var j :| 0 <= j < |front| && front[j].open.Opened?;
      assert polls[j].open.Opened?;
    }
    if OpenIn(polls, |front|) {
      var j :| 0 <= j < |polls| && polls[j].open.Opened?;
      assert j < |front| ==> front[j].open.Opened?;
    }
  }

  lemma {:induction false} NoneLostIfNoneFails<Event>(parse: Parser<Event>, polls: seq<PollInput>)
    requires NoReadFails(polls)
    ensures NoneLost(parse, polls)
  {
    if polls != [] {
      var n := |polls| - 1;
      var front := polls[..n];
      forall i | 0 <= i < |front| && OpenIn(front, i) ensures !Fails(front[i].results, MAX_EVENT_LOG_BYTES_PER_POLL) {
        OpenInFront(polls, i);
        assert front[i] == polls[i];
      }
      NoneLostIfNoneFails(parse, front);
      ConsumedIsRead(parse, front);
      OpenOneMore(polls);
    }
  }

  /** Over any polls of which no read fails, the returned events are those of the lines that are not empty, within the
      limit and parse: one event for each of these lines of the whole log taken, in order. */
  lemma DeliveredAreOfLines<Event>(parse: Parser<Event>, polls: seq<PollInput>)
    requires NoReadFails(polls)
    ensures var log := Flatten(TakenBy(polls)); AreEventsOf(parse, log, 0, |log|, Polled(parse, polls).delivered)
  {
    var log := Polled(parse, polls).consumed;
    ConsumedIsRead(parse, polls);
    NoneLostIfNoneFails(parse, polls);
    DeliveredIffNoneLost(parse, polls);
    NewEventsAreOfLines(parse, [], log);
    assert [] + log == log;
  }

  /** Two reads: a line that parses, then a failure. Whatever later polls bring, its event is never delivered. */
  lemma TwoReadsLoseAnEvent<Event>(parse: Parser<Event>, line: seq<Byte>, later: seq<PollInput>)
    requires IsEvent(parse, line) && NEWLINE !in line && |line| < EVENT_LOG_READ_CHUNK_BYTES
    ensures Fits([Data(line + [NEWLINE]), Failed], MAX_EVENT_LOG_BYTES_PER_POLL)
    ensures var polls := [PollInput(Opened, [Data(line + [NEWLINE]), Failed])] + later;
      Polled(parse, polls).delivered != Events(parse, Lines(Polled(parse, polls).consumed))
  {
    var results := [Data(line + [NEWLINE]), Failed];
    FailsAfterOneRead(line + [NEWLINE]);
    var polls := [PollInput(Opened, results)] + later;
    OneLine([], line, []);
    assert line + [NEWLINE] + [] == line + [NEWLINE] && [] + line == line;
    assert polls[..1] == [polls[0]] && [polls[0]][..0] == [];
    assert [line][0] in LinesFrom([], PollBytes(false, polls[0]));
    assert !NoneLost(parse, polls[..1]);
    if NoneLost(parse, polls) {
      LossStays(parse, polls, 1);
    }
    DeliveredIffNoneLost(parse, polls);
  }

  lemma FailsAfterOneRead(bytes: seq<Byte>)
    requires 0 < |bytes| <= EVENT_LOG_READ_CHUNK_BYTES
    ensures Fits([Data(bytes), Failed], MAX_EVENT_LOG_BYTES_PER_POLL)
    ensures Taken([Data(bytes), Failed], MAX_EVENT_LOG_BYTES_PER_POLL) == bytes
    ensures Fails([Data(bytes), Failed], MAX_EVENT_LOG_BYTES_PER_POLL)
  {
    var results := [Data(bytes), Failed];
    assert results[1..] == [Failed];
    assert bytes + [] == bytes;
  }

  // ----- the tailer -----

  class EventLogTailer<Event> {
    const parse: Parser<Event>
    var isOpen: bool
    var buf: seq<Byte>
    var discardingOversizedLine: bool
    var skippedInvalidLines: nat
    /** The bytes taken from the log so far. */
    ghost var consumed: seq<Byte>
    /** The polls so far. */
    ghost var polls: seq<PollInput>

    ghost predicate Valid()
      reads this
    {
      && skippedInvalidLines == Skips(parse, Lines(consumed))
      && (discardingOversizedLine <==> Oversized(Tail(consumed)))
      && buf == (if discardingOversizedLine then [] else Tail(consumed))
    }

    /** Between two polls: what has been read and returned is a function of the polls' outcomes. */
    ghost predicate Rests()
      reads this
    {
      Valid() && isOpen == Polled(parse, polls).isOpen && consumed == Polled(parse, polls).consumed
    }

    constructor (parse: Parser<Event>)
      ensures Rests() && this.parse == parse && polls == []
    {
      this.parse := parse;
      isOpen := false;
      buf := [];
      discardingOversizedLine := false;
      skippedInvalidLines := 0;
      consumed := [];
      polls := [];
    }

    /** The buffer never exceeds the line limit and never holds a newline. */
    lemma BufferIsBounded()
      requires Valid()
      ensures |buf| <= MAX_EVENT_LOG_LINE_BYTES && NEWLINE !in buf
    {
      LinesAreTheStream([], consumed);
    }

    /** Take in the bytes of one read: whatever they are, the state is that of the batch reading so far. */
    method ConsumeBytes(input: seq<Byte>, events: seq<Event>) returns (extended: seq<Event>)
      requires Valid()
      modifies `buf, `discardingOversizedLine, `skippedInvalidLines, `consumed
      ensures Valid()
      ensures consumed == old(consumed) + input
      ensures Events(parse, Lines(consumed)) == Events(parse, Lines(old(consumed))) + LinesEvents(old(consumed), input)
      ensures extended == events + LinesEvents(old(consumed), input)
    {
      extended := events;
      var bytes := input;
      ghost var start := consumed;
      assert [] + LinesEvents(start, input) == LinesEvents(start, input);
      while bytes != []
        invariant Valid()
        invariant consumed + bytes == start + input
        invariant extended + LinesEvents(consumed, bytes) == events + LinesEvents(start, input)
        decreases |bytes|
      {
        extended, bytes := ConsumeLine(bytes, extended);
      }
      assert consumed == start + input;
      assert LinesEvents(consumed, []) == [];
      AppendedEvents(start, input);
    }

    /** Take the bytes up to and with the first newline, or all of them when there is none. */
    method ConsumeLine(bytes: seq<Byte>, events: seq<Event>) returns (extended: seq<Event>, rest: seq<Byte>)
      requires Valid() && bytes != []
      modifies `buf, `discardingOversizedLine, `skippedInvalidLines, `consumed
      ensures Valid() && |rest| < |bytes|
      ensures consumed + rest == old(consumed) + bytes
      ensures extended + LinesEvents(consumed, rest) == events + LinesEvents(old(consumed), bytes)
    {
      var newline := Position(bytes);
      extended := events;
      if newline == |bytes| {
        assert bytes[..newline] == bytes;
        NoNewline(Tail(consumed), bytes);
        TakePartial(bytes);
        rest := [];
      } else {
        var fragment := bytes[..newline];
        rest := bytes[newline + 1..];
        assert bytes == fragment + [NEWLINE] + rest;
        CompletedLine(consumed, fragment, rest);
        ghost var before := consumed;
        var found := TakeLine(fragment);
        Regroup(extended, found, LinesEvents(consumed, rest));
        assert before + bytes == consumed + rest;
        extended := extended + found;
      }
    }

    ghost function LinesEvents(before: seq<Byte>, bytes: seq<Byte>): seq<Event> {
      NewEvents(parse, before, bytes)
    }

    lemma AppendedEvents(before: seq<Byte>, bytes: seq<Byte>)
      ensures Events(parse, Lines(before + bytes)) == Events(parse, Lines(before)) + LinesEvents(before, bytes)
      ensures Skips(parse, Lines(before + bytes)) == Skips(parse, Lines(before)) + Skips(parse, LinesFrom(Tail(before), bytes))
      ensures Tail(before + bytes) == TailFrom(Tail(before), bytes)
    {
      LinesOfPieces([], before, bytes);
      EventsOfPieces(parse, Lines(before), LinesFrom(Tail(before), bytes));
    }

    lemma CompletedLine(before: seq<Byte>, fragment: seq<Byte>, rest: seq<Byte>)
      requires NEWLINE !in fragment
      ensures LinesEvents(before, fragment + [NEWLINE] + rest)
           == LineEvents(parse, Tail(before) + fragment) + LinesEvents(before + fragment + [NEWLINE], rest)
    {
      OneLine(Tail(before), fragment, rest);
      OneLine(Tail(before), fragment, []);
      assert fragment + [NEWLINE] + [] == fragment + [NEWLINE];
      assert before + fragment + [NEWLINE] == before + (fragment + [NEWLINE]);
      LinesOfPieces([], before, fragment + [NEWLINE]);
      EventsOfPieces(parse, [Tail(before) + fragment], LinesFrom([], rest));
      EventsOfOne(Tail(before) + fragment);
    }

    lemma EventsOfOne(line: seq<Byte>)
      ensures Events(parse, [line]) == LineEvents(parse, line)
      ensures Skips(parse, [line]) == LineSkips(parse, line)
    {
      assert [line][1..] == [];
      assert LineEvents(parse, line) + [] == LineEvents(parse, line);
    }

    static method Position(bytes: seq<Byte>) returns (newline: nat)
      ensures newline <= |bytes| && NEWLINE !in bytes[..newline]
      ensures newline < |bytes| ==> bytes[newline] == NEWLINE
    {
      newline := 0;
      while newline < |bytes| && bytes[newline] != NEWLINE
        invariant newline <= |bytes| && NEWLINE !in bytes[..newline]
      {
        newline := newline + 1;
      }
    }

    /** Bytes without a newline: keep them, or start discarding the line they overflow. */
    method TakePartial(bytes: seq<Byte>)
      requires Valid() && NEWLINE !in bytes && bytes != []
      modifies `buf, `discardingOversizedLine, `consumed
      ensures Valid() && consumed == old(consumed) + bytes
    {
      AppendedEvents(consumed, bytes);
      NoNewline(Tail(consumed), bytes);
      consumed := consumed + bytes;
      if discardingOversizedLine {
        return;
      }
      if |buf| + |bytes| > MAX_EVENT_LOG_LINE_BYTES {
        buf := [];
        discardingOversizedLine := true;
      } else {
        buf := buf + bytes;
      }
    }

    /** Bytes up to a newline: end the discarded line, or drop, parse or count the completed one. */
    method TakeLine(fragment: seq<Byte>) returns (found: seq<Event>)
      requires Valid() && NEWLINE !in fragment
      modifies `buf, `discardingOversizedLine, `skippedInvalidLines, `consumed
      ensures Valid() && consumed == old(consumed) + fragment + [NEWLINE]
      ensures var line := Tail(old(consumed)) + fragment;
        found == if 0 < |line| <= MAX_EVENT_LOG_LINE_BYTES && parse(line).Some? then [parse(line).value] else []
    {
      ghost var line := Tail(consumed) + fragment;
      LineAppended(consumed, fragment);
      consumed := consumed + fragment + [NEWLINE];
      found := [];
      if discardingOversizedLine {
        discardingOversizedLine := false;
        return;
      }
      if |buf| + |fragment| > MAX_EVENT_LOG_LINE_BYTES {
        buf := [];
      } else {
        buf := buf + fragment;
        if buf != [] {
          var parsed := parse(buf);
          if parsed.Some? {
            found := [parsed.value];
          } else if !AllWhitespace(buf) {
            skippedInvalidLines := skippedInvalidLines + 1;
          }
        }
        buf := [];
      }
    }

    lemma LineAppended(before: seq<Byte>, fragment: seq<Byte>)
      requires NEWLINE !in fragment
      ensures Tail(before + fragment + [NEWLINE]) == []
      ensures Skips(parse, Lines(before + fragment + [NEWLINE]))
           == Skips(parse, Lines(before)) + LineSkips(parse, Tail(before) + fragment)
    {
      assert before + fragment + [NEWLINE] == before + (fragment + [NEWLINE]);
      AppendedEvents(before, fragment + [NEWLINE]);
      OneLine(Tail(before), fragment, []);
      assert fragment + [NEWLINE] + [] == fragment + [NEWLINE];
      EventsOfOne(Tail(before) + fragment);
    }

    /** Read until the end of the log, the poll budget or a failed read, parsing on the way. */
    method Drain(results: Reads) returns (events: seq<Event>, failed: bool)
      requires Valid()
      modifies `buf, `discardingOversizedLine, `skippedInvalidLines, `consumed
      ensures Valid() && consumed == old(consumed) + Taken(results, MAX_EVENT_LOG_BYTES_PER_POLL)
      ensures |consumed| <= |old(consumed)| + MAX_EVENT_LOG_BYTES_PER_POLL
      ensures failed <==> Fails(results, MAX_EVENT_LOG_BYTES_PER_POLL)
      ensures events == NewEvents(parse, old(consumed), Taken(results, MAX_EVENT_LOG_BYTES_PER_POLL))
    {
      events := [];
      var bytesRead, at := 0, 0;
      ghost var start, whole := consumed, Taken(results, MAX_EVENT_LOG_BYTES_PER_POLL);
      assert results[0..] == results;
      TakenIsBounded(results, MAX_EVENT_LOG_BYTES_PER_POLL);
      while bytesRead < MAX_EVENT_LOG_BYTES_PER_POLL
        invariant Valid() && bytesRead <= MAX_EVENT_LOG_BYTES_PER_POLL && at <= |results|
        invariant Remains(results, results[at..], MAX_EVENT_LOG_BYTES_PER_POLL - bytesRead, start, consumed)
        invariant Events(parse, Lines(consumed)) == Events(parse, Lines(start)) + events
        decreases MAX_EVENT_LOG_BYTES_PER_POLL - bytesRead
      {
        ghost var budget := MAX_EVENT_LOG_BYTES_PER_POLL - bytesRead;
        if at == |results| {
          break;
        }
        assert results[at..][0] == results[at] && results[at..][1..] == results[at + 1..];
        if results[at].Failed? {
          NothingRemains(results, results[at..], budget, start, consumed, events);
          return events, true;
        }
        if results[at].bytes == [] {
          break;
        }
        OneReadLess(results, results[at..], budget, start, consumed);
        bytesRead := bytesRead + |results[at].bytes|;
        ghost var before, parsed := consumed, events;
        events := ConsumeBytes(results[at].bytes, events);
        Regroup(Events(parse, Lines(start)), parsed, LinesEvents(before, results[at].bytes));
        at := at + 1;
      }
      NothingRemains(results, results[at..], MAX_EVENT_LOG_BYTES_PER_POLL - bytesRead, start, consumed, events);
      failed := false;
    }

    /** Behind `now`, the `rest` of the reads gives what all reads together give behind `start`. */
    ghost predicate Remains(results: Reads, rest: seq<ReadResult>, budget: nat, start: seq<Byte>, now: seq<Byte>) {
      && Fits(rest, budget)
      && start + Taken(results, MAX_EVENT_LOG_BYTES_PER_POLL) == now + Taken(rest, budget)
      && Fails(results, MAX_EVENT_LOG_BYTES_PER_POLL) == Fails(rest, budget)
    }

    lemma OneReadLess(results: Reads, rest: seq<ReadResult>, budget: nat, start: seq<Byte>, now: seq<Byte>)
      requires Remains(results, rest, budget, start, now) && !Stops(rest, budget)
      ensures Remains(results, rest[1..], budget - |rest[0].bytes|, start, now + rest[0].bytes)
    {
      Regroup(now, rest[0].bytes, Taken(rest[1..], budget - |rest[0].bytes|));
    }

    lemma NothingRemains(results: Reads, rest: seq<ReadResult>, budget: nat, start: seq<Byte>, now: seq<Byte>, events: seq<Event>)
      requires Remains(results, rest, budget, start, now) && Stops(rest, budget)
      requires Events(parse, Lines(now)) == Events(parse, Lines(start)) + events
      ensures now == start + Taken(results, MAX_EVENT_LOG_BYTES_PER_POLL)
      ensures events == NewEvents(parse, start, Taken(results, MAX_EVENT_LOG_BYTES_PER_POLL))
    {
      assert now + [] == now;
      AppendedEvents(start, Taken(results, MAX_EVENT_LOG_BYTES_PER_POLL));
      SameEnd(Events(parse, Lines(start)), events, NewEvents(parse, start, Taken(results, MAX_EVENT_LOG_BYTES_PER_POLL)));
    }

    lemma SameEnd(front: seq<Event>, a: seq<Event>, b: seq<Event>)
      requires front + a == front + b
      ensures a == b
    {
      assert a == (front + a)[|front|..] && b == (front + b)[|front|..];
    }

    /** After a poll that has extended the log taken from `before` to `now`: the corrupt lines of the log are counted, and
        what the poll returns are the events of exactly the lines completed by the bytes it took. */
    ghost predicate ReturnsLines(before: seq<Byte>, now: seq<Byte>, skipped: nat, result: Result<seq<Event>, PollError>) {
      && before <= now && IsCorruptCount(parse, now, skipped)
      && (result.Ok? ==> AreEventsOf(parse, now, |before|, |now|, result.value))
    }

    lemma PollReturnsLines(before: Progress<Event>, poll: PollInput)
      ensures var now := AfterPoll(parse, before, poll).consumed;
        ReturnsLines(before.consumed, now, Skips(parse, Lines(now)), PollResult(parse, before, poll))
    {
      var bytes := PollBytes(before.isOpen, poll);
      SkipsAreCorrupt(parse, before.consumed + bytes);
      NewEventsAreOfLines(parse, before.consumed, bytes);
    }

    /** One poll: what it reads, returns and leaves behind is a function of all polls so far and of this one's outcomes. */
    method Poll(poll: PollInput) returns (result: Result<seq<Event>, PollError>)
      requires Rests()
      modifies this
      ensures Rests() && polls == old(polls) + [poll]
      ensures result == PollResult(parse, Polled(parse, old(polls)), poll)
      ensures skippedInvalidLines == Skips(parse, Lines(Polled(parse, polls).consumed))
      ensures ReturnsLines(old(consumed), consumed, skippedInvalidLines, result)
    {
      PollReturnsLines(Polled(parse, polls), poll);
      ghost var was := polls;
      polls := polls + [poll];
      assert polls[..|polls| - 1] == was;
      assert NewEvents(parse, consumed, []) == [] && consumed + [] == consumed;
      if !isOpen {
        match poll.open {
          case Opened => isOpen := true;
          case Missing => return Ok([]);
          case OpenFailed => return Err(CannotOpen);
        }
      }
      var events, failed := Drain(poll.results);
      if failed {
        return Err(CannotRead);
      }
      return Ok(events);
    }
  }
}
