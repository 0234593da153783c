/** The output-directory lock and its parent-to-child handoff, over all interleavings of builders, handoff parents,
    adopting children, peeking terminal writers, failed writes and crashes
    (crates/bookforge-audio/src/lock.rs:284-300, 443-539; crates/bookforge-audio/src/builder.rs:455-462). */
module DirectoryLock {
  import opened Options
  import opened OwnerRecord

  type Pid = nat

  /** Every generated nonce has this many characters: two 16-digit hexadecimal numbers. */
  const NONCE_LENGTH: nat := 32

  ghost predicate IsNonce(nonce: string) {
    |nonce| == NONCE_LENGTH && Solid(nonce)
  }

  /** Why a record is written: a fresh claim or handoff with a new nonce, or an adoption under the nonce found. */
  datatype Reason = Claim | Handoff | Adoption

  datatype Write = Write(reason: Reason, pid: Pid, at: nat, nonce: string)

  function Text(write: Write): string {
    RecordString(write.pid, write.at, write.nonce)
  }

  datatype LockError = HeldBy(record: Record) | IoError

  /** What the process that has the kernel lock is doing. */
  datatype Phase =
    | Fresh                                    // locked, about to claim the record
    | Adopting(nonce: string)                  // locked, about to read the record
    | Comparing(nonce: string, found: Record)  // has read it, about to compare it with its nonce
    | Rewriting(nonce: string)                 // found its nonce, about to empty the record
    | Peeking                                  // locked only to look
    | Writing(write: Write, done: nat)         // the record was emptied and `done` characters are in the file
    | Owning                                   // its record is written; it may build, or address a child
    | Leaving(error: LockError)                // about to drop the lock and return the error

  datatype Holder = Holder(pid: Pid, phase: Phase)

  datatype State = State(
    contents: string,           // of the lock file
    holder: Option<Holder>,     // of the kernel lock
    writes: seq<Write>,         // every record write begun so far, in order
    used: set<string>)          // every nonce generated so far

  ghost predicate Init(s: State) {
    s == State("", None, [], {})
  }

  // ----- the steps -----

  datatype Step =
    | NoLock                                  // opening or locking failed, or the wait was too long: an error
    | TryLock(pid: Pid, phase: Phase)         // the kernel lock was free
    | BeginClaim(at: nat, nonce: string)
    | BeginHandoff(at: nat, nonce: string)
    | ReadRecord(failed: bool)
    | Compare
    | BeginAdoption(at: nat)
    | FailToBegin                             // emptying the record failed
    | WriteMore(done: nat)
    | FailToWrite
    | FinishWrite
    | Drop                                    // return an error: drop the lock
    | Release                                 // done, or died: the kernel frees the lock

  ghost predicate Begins(s: State, write: Write, t: State) {
    && s.holder.Some? && write.pid == s.holder.value.pid
    && WellFormed(write.pid, write.at, write.nonce)
    && t == State("", Some(Holder(write.pid, Writing(write, 0))), s.writes + [write], s.used + {write.nonce})
  }

  ghost predicate Next(s: State, step: Step, t: State) {
    match step
    case NoLock => t == s
    case TryLock(pid, phase) =>
      && s.holder.None?
      && (phase == Fresh || phase == Peeking || (phase.Adopting? && IsNonce(phase.nonce)))
      && t == s.(holder := Some(Holder(pid, phase)))
    case BeginClaim(at, nonce) =>
      && s.holder.Some? && s.holder.value.phase == Fresh
      && IsNonce(nonce) && nonce !in s.used
      && Begins(s, Write(Claim, s.holder.value.pid, at, nonce), t)
    case BeginHandoff(at, nonce) =>
      && s.holder.Some? && s.holder.value.phase == Owning
      && IsNonce(nonce) && nonce !in s.used
      && Begins(s, Write(Handoff, s.holder.value.pid, at, nonce), t)
    case ReadRecord(failed) =>
      && s.holder.Some? && s.holder.value.phase.Adopting?
      && var phase := if failed then Leaving(IoError) else Comparing(s.holder.value.phase.nonce, RecordIn(s.contents));
      && t == s.(holder := Some(Holder(s.holder.value.pid, phase)))
    case Compare =>
      && s.holder.Some? && s.holder.value.phase.Comparing?
      && var Comparing(nonce, found) := s.holder.value.phase;
      && var phase := if found.nonce == Some(nonce) then Rewriting(nonce) else Leaving(HeldBy(found));
      && t == s.(holder := Some(Holder(s.holder.value.pid, phase)))
    case BeginAdoption(at) =>
      && s.holder.Some? && s.holder.value.phase.Rewriting?
      && Begins(s, Write(Adoption, s.holder.value.pid, at, s.holder.value.phase.nonce), t)
    case FailToBegin =>
      && s.holder.Some? && (s.holder.value.phase.Rewriting? || s.holder.value.phase == Fresh)
      && t == s.(holder := Some(Holder(s.holder.value.pid, Leaving(IoError))))
    case WriteMore(done) =>
      && s.holder.Some? && s.holder.value.phase.Writing?
      && var Writing(write, before) := s.holder.value.phase;
      && before <= done <= |Text(write)|
      && t == s.(contents := Text(write)[..done], holder := Some(Holder(s.holder.value.pid, Writing(write, done))))
    case FailToWrite =>
      && s.holder.Some? && s.holder.value.phase.Writing?
      && t == s.(holder := Some(Holder(s.holder.value.pid, Leaving(IoError))))
    case FinishWrite =>
      && s.holder.Some? && s.holder.value.phase.Writing?
      && s.holder.value.phase.done == |Text(s.holder.value.phase.write)|
      && t == s.(holder := Some(Holder(s.holder.value.pid, Owning)))
    case Drop =>
      s.holder.Some? && s.holder.value.phase.Leaving? && t == s.(holder := None)
    case Release =>
      s.holder.Some? && t == s.(holder := None)
  }

  ghost predicate Run(states: seq<State>, steps: seq<Step>) {
    && |states| == |steps| + 1 && Init(states[0])
    && forall i | 0 <= i < |steps| :: Next(states[i], steps[i], states[i + 1])
  }

  // ----- what every run keeps -----

  function Last(writes: seq<Write>): Write
    requires writes != []
  {
    writes[|writes| - 1]
  }

  /** The file holds the beginning of the latest record, all of it once the writer has finished. */
  ghost predicate HoldsLatest(s: State) {
    && (s.writes == [] ==> s.contents == "")
    && (s.writes != [] ==> s.contents <= Text(Last(s.writes)))
    && (s.holder.Some? && s.holder.value.phase.Writing? ==>
          && s.writes != [] && s.holder.value.phase.write == Last(s.writes)
          && s.holder.value.phase.write.pid == s.holder.value.pid
          && |s.contents| == s.holder.value.phase.done)
    && (s.holder.Some? && s.holder.value.phase == Owning ==>
          s.writes != [] && s.contents == Text(Last(s.writes)) && Last(s.writes).pid == s.holder.value.pid)
  }

  /** Only adoptions reuse a nonce, and only the one written just before. */
  ghost predicate NoncesAreHandedOn(s: State) {
    && (forall i | 0 <= i < |s.writes| :: IsNonce(s.writes[i].nonce) && s.writes[i].nonce in s.used
          && WellFormed(s.writes[i].pid, s.writes[i].at, s.writes[i].nonce))
    && (forall i | 0 <= i < |s.writes| && s.writes[i].reason == Adoption :: i > 0 && s.writes[i - 1].nonce == s.writes[i].nonce)
    && (forall i, j | 0 <= i < j < |s.writes| && s.writes[j].reason != Adoption :: s.writes[i].nonce != s.writes[j].nonce)
  }

  /** An adopter's nonce is one, and what it has read is still what the file says. */
  ghost predicate AdopterKnows(s: State) {
    s.holder.Some? ==>
      match s.holder.value.phase
      case Adopting(nonce) => IsNonce(nonce)
      case Comparing(nonce, found) => IsNonce(nonce) && found == RecordIn(s.contents)
      case Rewriting(nonce) => IsNonce(nonce) && NonceIn(s.contents) == Some(nonce)
      case _ => true
  }

  ghost predicate Inv(s: State) {
    HoldsLatest(s) && NoncesAreHandedOn(s) && AdopterKnows(s)
  }

  lemma EmptyRecordHasNoNonce()
    ensures NonceIn("") == None
  {
  }

  /** The heart of the handoff: the nonce an adopter finds is the nonce of the latest write, wholly in the file. */
  lemma FoundNonceIsLatest(s: State, nonce: string)
    requires Inv(s) && IsNonce(nonce) && NonceIn(s.contents) == Some(nonce)
    ensures s.writes != [] && Last(s.writes).nonce == nonce
    ensures |s.contents| >= NonceStart(Last(s.writes).pid, Last(s.writes).at) + |nonce|
    ensures Parsed(s.contents) == Some(Record(Last(s.writes).pid, Last(s.writes).at, Some(nonce)))
  {
    EmptyRecordHasNoNonce();
    var write := Last(s.writes);
    assert s.contents == Text(write)[..|s.contents|];
    TornNeverMatchesAnother(write.pid, write.at, write.nonce, |s.contents|, nonce);
  }

  lemma BeginKeepsInv(s: State, write: Write, t: State)
    requires Inv(s) && Begins(s, write, t) && IsNonce(write.nonce)
    requires if write.reason == Adoption then s.writes != [] && Last(s.writes).nonce == write.nonce else write.nonce !in s.used
    ensures Inv(t)
  {
    assert Last(t.writes) == write;
  }

  lemma NextKeepsInv(s: State, step: Step, t: State)
    requires Inv(s) && Next(s, step, t)
    ensures Inv(t)
  {
    match step
    case BeginClaim(at, nonce) => BeginKeepsInv(s, Write(Claim, s.holder.value.pid, at, nonce), t);
    case BeginHandoff(at, nonce) => BeginKeepsInv(s, Write(Handoff, s.holder.value.pid, at, nonce), t);
    case BeginAdoption(at) =>
      var nonce := s.holder.value.phase.nonce;
      FoundNonceIsLatest(s, nonce);
      BeginKeepsInv(s, Write(Adoption, s.holder.value.pid, at, nonce), t);
    case FinishWrite =>
      var write := s.holder.value.phase.write;
      assert s.contents == Text(write)[..|s.contents|] == Text(write);
    case _ =>
  }

  lemma RunKeepsInv(states: seq<State>, steps: seq<Step>)
    requires Run(states, steps)
    ensures forall i | 0 <= i < |states| :: Inv(states[i])
  {
    for i := 0 to |steps|
      invariant forall k | 0 <= k <= i :: Inv(states[k])
    {
      NextKeepsInv(states[i], steps[i], states[i + 1]);
    }
  }

  // ----- the guarantees -----

  /** Where the nonce of the latest write was generated. */
  lemma {:induction false} Origin(s: State, last: nat) returns (origin: nat)
    requires Inv(s) && last < |s.writes|
    ensures origin <= last && s.writes[origin].reason != Adoption
    ensures forall i | origin <= i <= last :: s.writes[i].nonce == s.writes[last].nonce
    ensures forall i | origin < i <= last :: s.writes[i].reason == Adoption
  {
    if s.writes[last].reason == Adoption {
      origin := Origin(s, last - 1);
    } else {
      origin := last;
    }
  }

  /** A child adopts only a nonce that a claim or handoff wrote in full, with no other owner's write since: everything
      written after it, if anything, are adoptions of that same nonce. */
  lemma AdoptionIsAddressed(states: seq<State>, steps: seq<Step>, i: nat)
    requires Run(states, steps) && i < |steps| && steps[i].BeginAdoption?
    ensures states[i].holder.Some? && states[i].holder.value.phase.Rewriting?
    ensures var s, nonce := states[i], states[i].holder.value.phase.nonce;
      exists origin: nat | origin < |s.writes| ::
        && s.writes[origin].reason != Adoption
        && (forall k | origin <= k < |s.writes| :: s.writes[k].nonce == nonce && (k > origin ==> s.writes[k].reason == Adoption))
        && Parsed(s.contents) == Some(Record(Last(s.writes).pid, Last(s.writes).at, Some(nonce)))
  {
    var s := states[i];
    RunKeepsInv(states, steps);
    assert Next(s, steps[i], states[i + 1]);
    FoundNonceIsLatest(s, s.holder.value.phase.nonce);
    var origin := Origin(s, |s.writes| - 1);
    assert s.writes[origin].reason != Adoption;
  }

  // ----- an adoption that fails -----

  predicate GivesUpLock(step: Step) {
    step.Drop? || step.Release?
  }

  /** Where the adopter `pid` stands that found `found` when it got the lock: before its write nothing has changed; its
      write has begun only if `found` carries its nonce, and an error that names a holder names the one in `found`. */
  ghost predicate InSession(s: State, found: State, pid: Pid, nonce: string) {
    && s.holder.Some? && s.holder.value.pid == pid
    && match s.holder.value.phase
       case Adopting(mine) => mine == nonce && Untouched(s, found)
       case Comparing(mine, record) => mine == nonce && Untouched(s, found) && record == RecordIn(found.contents)
       case Rewriting(mine) => mine == nonce && Untouched(s, found) && NonceIn(found.contents) == Some(nonce)
       case Leaving(error) => if error.HeldBy? then Refused(s, found, nonce) && error.record == RecordIn(found.contents)
                              else Untouched(s, found) || Wrote(s, found, nonce)
       case Writing(_, _) => Wrote(s, found, nonce)
       case Owning => Wrote(s, found, nonce)
       case Fresh => false
       case Peeking => false
  }

  ghost predicate Untouched(s: State, found: State) {
    s.contents == found.contents && s.writes == found.writes
  }

  ghost predicate Refused(s: State, found: State, nonce: string) {
    Untouched(s, found) && NonceIn(found.contents) != Some(nonce)
  }

  ghost predicate Wrote(s: State, found: State, nonce: string) {
    NonceIn(found.contents) == Some(nonce) && found.writes < s.writes
  }

  /** Between `i`, where an adopter gets the lock, and `j` nothing gives the lock up. */
  ghost predicate Session(states: seq<State>, steps: seq<Step>, i: nat, j: nat, nonce: string) {
    && Run(states, steps) && i < j <= |steps|
    && steps[i].TryLock? && steps[i].phase == Adopting(nonce)
    && forall k | i < k < j :: !GivesUpLock(steps[k])
  }

  lemma {:induction false} SessionUnfolds(states: seq<State>, steps: seq<Step>, i: nat, j: nat, nonce: string)
    requires Session(states, steps, i, j, nonce)
    ensures InSession(states[j], states[i], steps[i].pid, nonce)
    decreases j
  {
    assert Next(states[j - 1], steps[j - 1], states[j]);
    if j > i + 1 {
      SessionUnfolds(states, steps, i, j - 1, nonce);
    }
  }

  /** In every run, wherever an adopter drops the lock or dies: the record is as it found it, unless it found its own
      nonce there and began to write. */
  lemma FailedAdoptionChangesNothing(states: seq<State>, steps: seq<Step>, i: nat, j: nat, nonce: string)
    requires Session(states, steps, i, j, nonce) && j < |steps| && GivesUpLock(steps[j])
    ensures Untouched(states[j + 1], states[i]) || Wrote(states[j + 1], states[i], nonce)
    ensures NonceIn(states[i].contents) != Some(nonce) ==> Untouched(states[j + 1], states[i])
  {
    SessionUnfolds(states, steps, i, j, nonce);
    assert Next(states[j], steps[j], states[j + 1]);
  }

  /** An adopter that is told who holds the lock is told what the record says, then and still, and it is not its own. */
  lemma RefusalNamesTheOwner(states: seq<State>, steps: seq<Step>, i: nat, j: nat, nonce: string, record: Record)
    requires Session(states, steps, i, j, nonce) && j < |steps|
    requires steps[j].Drop? && states[j].holder.Some? && states[j].holder.value.phase == Leaving(HeldBy(record))
    ensures Untouched(states[j + 1], states[i])
    ensures record == RecordIn(states[i].contents) == RecordIn(states[j + 1].contents) && record.nonce != Some(nonce)
  {
    SessionUnfolds(states, steps, i, j, nonce);
    assert Next(states[j], steps[j], states[j + 1]);
  }

  /** A terminal writer that finds a child's pid and nonce in the record knows no newer owner has taken over:
      the child's write is the latest, and it is whole as far as the nonce. */
  lemma PeekIdentifiesOwner(states: seq<State>, steps: seq<Step>, i: nat, pid: Pid, at: nat, nonce: string)
    requires Run(states, steps) && i < |states| && IsNonce(nonce)
    requires Parsed(states[i].contents) == Some(Record(pid, at, Some(nonce)))
    ensures states[i].writes != []
    ensures Last(states[i].writes).pid == pid && Last(states[i].writes).at == at && Last(states[i].writes).nonce == nonce
  {
    RunKeepsInv(states, steps);
    FoundNonceIsLatest(states[i], nonce);
  }

  /** Once the adopting child's write has finished, the record names the child under the nonce it was given,
      whatever earlier writers left behind. */
  lemma OwnerIsNamed(states: seq<State>, steps: seq<Step>, i: nat)
    requires Run(states, steps) && i < |states|
    requires states[i].holder.Some? && states[i].holder.value.phase == Owning
    ensures states[i].writes != []
    ensures Parsed(states[i].contents)
         == Some(Record(states[i].holder.value.pid, Last(states[i].writes).at, Some(Last(states[i].writes).nonce)))
  {
    RunKeepsInv(states, steps);
    var write := Last(states[i].writes);
    RecordRoundTrip(write.pid, write.at, write.nonce);
  }

  /** A nonce once overwritten by another owner never opens the lock again. */
  lemma SupersededNonceIsRefused(states: seq<State>, steps: seq<Step>, i: nat, earlier: nat, newer: nat)
    requires Run(states, steps) && i < |states|
    requires earlier < newer < |states[i].writes|
    requires states[i].writes[newer].nonce != states[i].writes[earlier].nonce
    ensures NonceIn(states[i].contents) != Some(states[i].writes[earlier].nonce)
  {
    var s := states[i];
    RunKeepsInv(states, steps);
    if NonceIn(s.contents) == Some(s.writes[earlier].nonce) {
      FoundNonceIsLatest(s, s.writes[earlier].nonce);
      var origin := Origin(s, |s.writes| - 1);
      assert false;
    }
  }
}
