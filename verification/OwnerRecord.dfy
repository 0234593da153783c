/** The owner record of the output-directory lock, as text (crates/bookforge-audio/src/lock.rs:351-417). */
module OwnerRecord {
  import opened Options
  import opened Strings
  import opened Numbers

  const U32_MAX: nat := 0xFFFF_FFFF
  const U64_MAX: nat := 0xFFFF_FFFF_FFFF_FFFF

  datatype Record = Record(pid: nat, startedAtMs: nat, nonce: Option<string>)

  const UNREADABLE := Record(0, 0, None)

  // ----- writing -----

  function RecordString(pid: nat, startedAtMs: nat, nonce: string): string {
    "pid=" + Decimal(pid) + "\nstarted_at_ms=" + Decimal(startedAtMs) + "\nnonce=" + nonce + "\n"
  }

  // ----- reading -----

  function NewlineAt(s: string): (r: nat)
    ensures r <= |s| && '\n' !in s[..r] && (r < |s| ==> s[r] == '\n')
  {
    if s == "" || s[0] == '\n' then 0
    else
      var r := 1 + NewlineAt(s[1..]);
      assert s[..r] == [s[0]] + s[1..][..r - 1];
      r
  }

  function WithoutReturn(line: string): string {
    if line != "" && line[|line| - 1] == '\r' then line[..|line| - 1] else line
  }

  /** `str::lines`: cut at newlines, dropping a carriage return before each; no empty last line. */
  function Lines(s: string): seq<string>
    decreases |s|
  {
    var at := NewlineAt(s);
    if s == "" then [] else if at == |s| then [s] else [WithoutReturn(s[..at])] + Lines(s[at + 1..])
  }

  function StripPrefix(line: string, prefix: string): Option<string> {
    if prefix <= line then Some(line[|prefix|..]) else None
  }

  datatype Fields = Fields(pid: Option<nat>, startedAtMs: Option<nat>, nonce: Option<string>)

  function ParsedOr(line: string, prefix: string, max: nat, otherwise: Option<nat>): Option<nat> {
    match StripPrefix(line, prefix)
    case None => otherwise
    case Some(value) => (match ParseUnsigned(Trim(value), max) case None => otherwise case Some(n) => Some(n))
  }

  /** The three fields after one more line. */
  function TakeLine(fields: Fields, line: string): Fields {
    Fields(
      ParsedOr(line, "pid=", U32_MAX, fields.pid),
      ParsedOr(line, "started_at_ms=", U64_MAX, fields.startedAtMs),
      match StripPrefix(line, "nonce=") case None => fields.nonce case Some(value) => Some(Trim(value)))
  }

  function TakeLines(fields: Fields, lines: seq<string>): Fields
    decreases lines
  {
    if lines == [] then fields else TakeLines(TakeLine(fields, lines[0]), lines[1..])
  }

  function ToRecord(fields: Fields): Option<Record> {
    match fields.pid
    case None => None
    case Some(pid) => Some(Record(pid, match fields.startedAtMs case None => 0 case Some(t) => t, fields.nonce))
  }

  function Parsed(contents: string): Option<Record> {
    ToRecord(TakeLines(Fields(None, None, None), Lines(contents)))
  }

  method ParseOwnerRecord(contents: string) returns (record: Option<Record>)
    ensures record == Parsed(contents)
  {
    var pid: Option<nat>, startedAtMs: Option<nat>, nonce: Option<string> := None, None, None;
    var lines := Lines(contents);
    for k := 0 to |lines|
      invariant TakeLines(Fields(pid, startedAtMs, nonce), lines[k..]) == TakeLines(Fields(None, None, None), lines)
    {
      assert lines[k..][0] == lines[k] && lines[k..][1..] == lines[k + 1..];
      var line := lines[k];
      var value := StripPrefix(line, "pid=");
      if value.Some? && ParseUnsigned(Trim(value.value), U32_MAX).Some? {
        pid := ParseUnsigned(Trim(value.value), U32_MAX);
      }
      value := StripPrefix(line, "started_at_ms=");
      if value.Some? && ParseUnsigned(Trim(value.value), U64_MAX).Some? {
        startedAtMs := ParseUnsigned(Trim(value.value), U64_MAX);
      }
      value := StripPrefix(line, "nonce=");
      if value.Some? {
        nonce := Some(Trim(value.value));
      }
    }
    if pid.None? {
      return None;
    }
    return Some(Record(pid.value, if startedAtMs.Some? then startedAtMs.value else 0, nonce));
  }

  // ----- reading back what was written, whole or torn -----

  /** A nonce as `generate_nonce` makes them: no whitespace. */
  predicate Solid(s: string) {
    forall k | 0 <= k < |s| :: !IsWhitespace(s[k])
  }

  lemma DecimalIsSolid(n: nat)
    ensures Solid(Decimal(n))
  {
    forall k | 0 <= k < |Decimal(n)| ensures !IsWhitespace(Decimal(n)[k]) {
      assert IsDigit(Decimal(n)[k]);
    }
  }

  lemma {:induction false} NewlineAfter(line: string, rest: string)
    requires '\n' !in line
    ensures NewlineAt(line + "\n" + rest) == |line|
  {
    if line != "" {
      NewlineAfter(line[1..], rest);
      assert (line + "\n" + rest)[1..] == line[1..] + "\n" + rest;
    }
  }

  lemma FirstLine(line: string, rest: string)
    requires '\n' !in line && '\r' !in line
    ensures Lines(line + "\n" + rest) == [line] + Lines(rest)
  {
    var s := line + "\n" + rest;
    NewlineAfter(line, rest);
    assert s[..|line|] == line && s[|line| + 1..] == rest;
  }

  ghost predicate WellFormed(pid: nat, startedAtMs: nat, nonce: string) {
    pid <= U32_MAX && startedAtMs <= U64_MAX && Solid(nonce)
  }

  function PidLine(pid: nat): string {
    "pid=" + Decimal(pid)
  }

  function StartLine(startedAtMs: nat): string {
    "started_at_ms=" + Decimal(startedAtMs)
  }

  lemma WholeLines(pid: nat, startedAtMs: nat, nonce: string)
    ensures RecordString(pid, startedAtMs, nonce)
         == PidLine(pid) + "\n" + (StartLine(startedAtMs) + "\n" + ("nonce=" + nonce + "\n"))
  {
    assert "\nstarted_at_ms=" == "\n" + "started_at_ms=" && "\nnonce=" == "\n" + "nonce=";
  }

  lemma TakePidLine(pid: nat)
    requires pid <= U32_MAX
    ensures '\n' !in PidLine(pid) && '\r' !in PidLine(pid)
    ensures TakeLine(Fields(None, None, None), PidLine(pid)) == Fields(Some(pid), None, None)
  {
    PidLineShape(pid);
    DecimalIsSolid(pid);
    ParseDecimal(pid, U32_MAX);
  }

  lemma PidLineShape(pid: nat)
    ensures '\n' !in PidLine(pid) && '\r' !in PidLine(pid)
    ensures StripPrefix(PidLine(pid), "pid=") == Some(Decimal(pid))
    ensures StripPrefix(PidLine(pid), "started_at_ms=").None? && StripPrefix(PidLine(pid), "nonce=").None?
  {
    var line := PidLine(pid);
    DecimalIsSolid(pid);
    assert line[4..] == Decimal(pid) && line[0] == 'p' && "pid=" <= line;
    assert "started_at_ms="[0] == 's' && "nonce="[0] == 'n';
  }

  lemma TakeStartLine(fields: Fields, startedAtMs: nat)
    requires startedAtMs <= U64_MAX
    ensures '\n' !in StartLine(startedAtMs) && '\r' !in StartLine(startedAtMs)
    ensures TakeLine(fields, StartLine(startedAtMs)) == fields.(startedAtMs := Some(startedAtMs))
  {
    StartLineShape(startedAtMs);
    DecimalIsSolid(startedAtMs);
    ParseDecimal(startedAtMs, U64_MAX);
  }

  lemma StartLineShape(startedAtMs: nat)
    ensures '\n' !in StartLine(startedAtMs) && '\r' !in StartLine(startedAtMs)
    ensures StripPrefix(StartLine(startedAtMs), "started_at_ms=") == Some(Decimal(startedAtMs))
    ensures StripPrefix(StartLine(startedAtMs), "pid=").None? && StripPrefix(StartLine(startedAtMs), "nonce=").None?
  {
    var line := StartLine(startedAtMs);
    DecimalIsSolid(startedAtMs);
    assert line[14..] == Decimal(startedAtMs) && line[0] == 's' && "started_at_ms=" <= line;
    assert "pid="[0] == 'p' && "nonce="[0] == 'n';
  }

  /** A line cut off before its end changes no other field, and a cut nonce is a prefix of the nonce. */
  lemma TakeCutLine(fields: Fields, line: string, cut: nat)
    requires cut <= |line| && line != ""
    ensures line[0] != 'p' ==> TakeLine(fields, line[..cut]).pid == fields.pid
    ensures line[0] != 's' ==> TakeLine(fields, line[..cut]).startedAtMs == fields.startedAtMs
    ensures line[0] != 'n' ==> TakeLine(fields, line[..cut]).nonce == fields.nonce
  {
    assert "pid="[0] == 'p' && "started_at_ms="[0] == 's' && "nonce="[0] == 'n';
  }

  lemma TakeCutNonce(fields: Fields, nonce: string, cut: nat)
    requires Solid(nonce) && cut <= 6 + |nonce|
    ensures TakeLine(fields, ("nonce=" + nonce)[..cut]).nonce == if cut < 6 then fields.nonce else Some(nonce[..cut - 6])
  {
    var line := ("nonce=" + nonce)[..cut];
    if cut >= 6 {
      assert line == "nonce=" + nonce[..cut - 6];
      assert line[6..] == nonce[..cut - 6];
    }
  }

  lemma TakeUnfinished(fields: Fields, line: string)
    requires '\n' !in line
    ensures TakeLines(fields, Lines(line)) == TakeLine(fields, line)
  {
    if line != "" {
      assert [line] + [] == [line];
    } else {
      assert !("pid=" <= line) && !("started_at_ms=" <= line) && !("nonce=" <= line);
    }
  }

  /** What is read from a record of which only the first `cut` characters were written. */
  function Torn(pid: nat, startedAtMs: nat, nonce: string, cut: nat): Option<Record>
    requires cut <= |RecordString(pid, startedAtMs, nonce)|
  {
    Parsed(RecordString(pid, startedAtMs, nonce)[..cut])
  }

  function NonceStart(pid: nat, startedAtMs: nat): nat {
    |PidLine(pid)| + 1 + |StartLine(startedAtMs)| + 1 + 6
  }

  /** The part of the nonce that a record cut off at `cut` still has. */
  function CutNonce(pid: nat, startedAtMs: nat, nonce: string, cut: nat): string
    requires cut >= NonceStart(pid, startedAtMs)
  {
    var written := cut - NonceStart(pid, startedAtMs);
    nonce[..if written < |nonce| then written else |nonce|]
  }

  /** A torn record has no nonce unless the cut is behind "nonce="; then pid and start time are intact and the
      nonce read is the part of it that was written. */
  lemma TornRecord(pid: nat, startedAtMs: nat, nonce: string, cut: nat)
    requires WellFormed(pid, startedAtMs, nonce) && cut <= |RecordString(pid, startedAtMs, nonce)|
    ensures cut < NonceStart(pid, startedAtMs) ==>
      Torn(pid, startedAtMs, nonce, cut) == None || Torn(pid, startedAtMs, nonce, cut).value.nonce == None
    ensures cut >= NonceStart(pid, startedAtMs) ==>
      Torn(pid, startedAtMs, nonce, cut) == Some(Record(pid, startedAtMs, Some(CutNonce(pid, startedAtMs, nonce, cut))))
  {
    var none := Fields(None, None, None);
    var first, rest := PidLine(pid), StartLine(startedAtMs) + "\n" + ("nonce=" + nonce + "\n");
    var whole := RecordString(pid, startedAtMs, nonce);
    WholeLines(pid, startedAtMs, nonce);
    TakePidLine(pid);
    if cut <= |first| {
      assert whole[..cut] == first[..cut];
      CutInPidLine(pid, cut);
    } else {
      var cut2 := cut - |first| - 1;
      assert whole[..cut] == first + "\n" + rest[..cut2];
      FirstLine(first, rest[..cut2]);
      CutInStartLine(pid, startedAtMs, nonce, cut2);
    }
  }

  lemma CutInPidLine(pid: nat, cut: nat)
    requires pid <= U32_MAX && cut <= |PidLine(pid)|
    ensures Parsed(PidLine(pid)[..cut]) == None || Parsed(PidLine(pid)[..cut]).value.nonce == None
  {
    var none, first := Fields(None, None, None), PidLine(pid);
    TakePidLine(pid);
    TakeUnfinished(none, first[..cut]);
    TakeCutLine(none, first, cut);
  }

  lemma CutInStartLine(pid: nat, startedAtMs: nat, nonce: string, cut: nat)
    requires WellFormed(pid, startedAtMs, nonce) && cut <= |StartLine(startedAtMs)| + 1 + 6 + |nonce| + 1
    ensures var start := |StartLine(startedAtMs)| + 1 + 6;
      var rest := (StartLine(startedAtMs) + "\n" + ("nonce=" + nonce + "\n"))[..cut];
      var fields := TakeLines(Fields(Some(pid), None, None), Lines(rest));
      && fields.pid == Some(pid)
      && (cut < start ==> fields.nonce == None)
      && (cut >= start ==>
            && fields.startedAtMs == Some(startedAtMs)
            && fields.nonce == Some(nonce[..if cut - start < |nonce| then cut - start else |nonce|]))
  {
    var fields := Fields(Some(pid), None, None);
    var second, third := StartLine(startedAtMs), "nonce=" + nonce + "\n";
    var rest := second + "\n" + third;
    TakeStartLine(fields, startedAtMs);
    if cut <= |second| {
      assert rest[..cut] == second[..cut];
      TakeUnfinished(fields, second[..cut]);
      TakeCutLine(fields, second, cut);
    } else {
      var cut3 := cut - |second| - 1;
      assert rest[..cut] == second + "\n" + third[..cut3];
      FirstLine(second, third[..cut3]);
      CutInNonceLine(pid, startedAtMs, nonce, cut3);
    }
  }

  lemma CutInNonceLine(pid: nat, startedAtMs: nat, nonce: string, cut: nat)
    requires Solid(nonce) && cut <= 6 + |nonce| + 1
    ensures TakeLines(Fields(Some(pid), Some(startedAtMs), None), Lines(("nonce=" + nonce + "\n")[..cut]))
         == Fields(Some(pid), Some(startedAtMs), if cut < 6 then None else Some(nonce[..if cut - 6 < |nonce| then cut - 6 else |nonce|]))
  {
    var fields := Fields(Some(pid), Some(startedAtMs), None);
    var line := "nonce=" + nonce;
    assert '\n' !in line && '\r' !in line;
    if cut <= |line| {
      assert (line + "\n")[..cut] == line[..cut];
      TakeUnfinished(fields, line[..cut]);
      TakeCutLine(fields, line, cut);
      TakeCutNonce(fields, nonce, cut);
    } else {
      assert (line + "\n")[..cut] == line + "\n" + "";
      FirstLine(line, "");
      assert [line] + [] == [line];
      assert line[..|line|] == line;
      TakeCutLine(fields, line, |line|);
      TakeCutNonce(fields, nonce, |line|);
    }
  }

  /** Reading back a record that was written whole. */
  lemma RecordRoundTrip(pid: nat, startedAtMs: nat, nonce: string)
    requires WellFormed(pid, startedAtMs, nonce)
    ensures Parsed(RecordString(pid, startedAtMs, nonce)) == Some(Record(pid, startedAtMs, Some(nonce)))
  {
    var whole := RecordString(pid, startedAtMs, nonce);
    TornRecord(pid, startedAtMs, nonce, |whole|);
    assert whole[..|whole|] == whole;
    WholeLines(pid, startedAtMs, nonce);
    assert nonce[..|nonce|] == nonce;
  }

  /** The record as a holder of the lock reads it from the file. */
  function RecordIn(contents: string): Record {
    match Parsed(contents)
    case None => UNREADABLE
    case Some(record) => record
  }

  /** The nonce it reads: a record that cannot be parsed carries none. */
  function NonceIn(contents: string): Option<string> {
    RecordIn(contents).nonce
  }

  /** With nonces of one length, a torn record carries another nonce than its own under no circumstances,
      and its own only when nonce, pid and start time are all there. */
  lemma TornNeverMatchesAnother(pid: nat, startedAtMs: nat, nonce: string, cut: nat, other: string)
    requires WellFormed(pid, startedAtMs, nonce) && cut <= |RecordString(pid, startedAtMs, nonce)|
    requires |other| == |nonce|
    ensures NonceIn(RecordString(pid, startedAtMs, nonce)[..cut]) == Some(other)
       <==> other == nonce && cut >= NonceStart(pid, startedAtMs) + |nonce|
    ensures NonceIn(RecordString(pid, startedAtMs, nonce)[..cut]) == Some(other)
        ==> Torn(pid, startedAtMs, nonce, cut) == Some(Record(pid, startedAtMs, Some(nonce)))
  {
    TornRecord(pid, startedAtMs, nonce, cut);
    assert nonce[..|nonce|] == nonce;
  }
}
