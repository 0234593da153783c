/** When a build pays twice for one chunk: only in the second of two failed-only retries in a row, and there it can
    (crates/bookforge-audio/src/builder.rs:562-590, 664-739, 753-892). */
module RetryHistory {
  import opened Options
  import opened Manifest
  import opened ResumableBuild

  /** How many retries have begun since the last ordinary build, before step `i`. */
  function RetriesInARow(steps: seq<Step>, i: nat): nat
    requires i <= |steps|
  {
    if i == 0 then 0
    else match steps[i - 1]
      case Begin(_, retryFailed) => if retryFailed then RetriesInARow(steps, i - 1) + 1 else 0
      case _ => RetriesInARow(steps, i - 1)
  }

  /** No chunk recorded as failed has its file on disk. */
  ghost predicate FailedAreMissing(records: seq<ChunkRecord>, files: map<string, Audio>) {
    forall i | 0 <= i < |records| && records[i].status == Failed :: records[i].file !in files
  }

  /** What an ordinary build, running or ended anywhere, leaves: what it calls failed is missing. */
  ghost predicate OrdinaryLeaves(s: State) {
    && (s.disk.manifest.Some? ==> FailedAreMissing(s.disk.manifest.value, s.disk.files))
    && (s.run.Building? ==>
          && FailedAreMissing(s.run.records, s.disk.files) && |s.run.stages| == |s.run.plan|
          && forall i | 0 <= i < |s.run.plan| && s.run.stages[i].Finished? && s.run.stages[i].resolution.Failure? ::
               s.run.plan[i].file !in s.disk.files)
  }

  /** A retry that started from such a manifest: what it may still call for is missing. */
  ghost predicate RetryMayCallForMissing(s: State) {
    s.run.Building? ==>
      && |s.run.stages| == |s.run.plan|
      && forall i | 0 <= i < |s.run.plan| && s.run.stages[i].Waiting? && MayRetry(s.run.previous, s.run.plan[i]) ::
           s.run.plan[i].file !in s.disk.files
  }

  ghost predicate Lineage(s: State, retries: nat) {
    && (s.run.Building? ==> (s.run.retryFailed <==> retries > 0))
    && (retries == 0 ==> OrdinaryLeaves(s))
    && (retries == 1 ==> RetryMayCallForMissing(s))
  }

  function RetriesAfter(step: Step, retries: nat): nat {
    match step
    case Begin(_, retryFailed) => if retryFailed then retries + 1 else 0
    case _ => retries
  }

  lemma {:induction false} FoundFailedIsMissing(records: seq<ChunkRecord>, files: map<string, Audio>, file: string)
    requires FailedAreMissing(records, files)
    ensures Find(records, file).Some? && Find(records, file).value.status == Failed ==> file !in files
  {
    if records != [] && records[|records| - 1].file != file {
      FoundFailedIsMissing(records[..|records| - 1], files, file);
    }
  }

  lemma BeginKeepsLineage(world: World, s: State, plan: seq<Job>, retryFailed: bool, retries: nat)
    requires Inv(world, s) && Enabled(world, s, Begin(plan, retryFailed)) && Lineage(s, retries)
    ensures Lineage(After(world, s, Begin(plan, retryFailed)), RetriesAfter(Begin(plan, retryFailed), retries))
  {
    var t := After(world, s, Begin(plan, retryFailed));
    if retryFailed && retries == 0 {
      forall i | 0 <= i < |plan| && MayRetry(t.run.previous, plan[i]) ensures plan[i].file !in t.disk.files {
        FoundFailedIsMissing(t.run.previous, s.disk.files, plan[i].file);
      }
    }
  }

  /** An ordinary build's task fails only where the file is missing, and writes only its own file. */
  lemma OrdinaryResolveKeepsLineage(world: World, s: State, index: nat, provided: Option<Audio>)
    requires Inv(world, s) && Enabled(world, s, Resolve(index, provided)) && Lineage(s, 0)
    ensures Lineage(After(world, s, Resolve(index, provided)), 0)
  {
    OrdinaryBuildPaysOnlyForMissing(world, s, index, provided);
    var t := After(world, s, Resolve(index, provided));
    assert s.run.records[index] == Planned(s.run.plan[index]);
    var saved := s.disk.manifest.value;
    assert saved[index] == Planned(s.run.plan[index]);
    forall i | 0 <= i < |saved| && saved[i].status == Failed ensures saved[i].file !in t.disk.files {
      assert i != index && saved[i].file == s.run.plan[i].file;
    }
  }

  lemma RetryResolveKeepsLineage(world: World, s: State, index: nat, provided: Option<Audio>)
    requires Inv(world, s) && Enabled(world, s, Resolve(index, provided)) && Lineage(s, 1)
    ensures Lineage(After(world, s, Resolve(index, provided)), 1)
  {
  }

  lemma StepKeepsLineage(world: World, s: State, step: Step, retries: nat)
    requires Inv(world, s) && Enabled(world, s, step) && Lineage(s, retries)
    ensures Lineage(After(world, s, step), RetriesAfter(step, retries))
  {
    match step
    case Begin(plan, retryFailed) => BeginKeepsLineage(world, s, plan, retryFailed, retries);
    case Resolve(index, provided) =>
      if retries == 0 {
        OrdinaryResolveKeepsLineage(world, s, index, provided);
      } else if retries == 1 {
        RetryResolveKeepsLineage(world, s, index, provided);
      }
    case _ =>
  }

  lemma {:induction false} HistoryKeepsLineage(world: World, states: seq<State>, steps: seq<Step>, i: nat)
    requires History(world, states, steps) && i <= |steps|
    ensures Lineage(states[i], RetriesInARow(steps, i))
    decreases i
  {
    if i > 0 {
      HistoryKeepsLineage(world, states, steps, i - 1);
      HistoryKeepsInv(world, states, steps);
      assert Follows(world, states, steps, i - 1);
      StepKeepsLineage(world, states[i - 1], steps[i - 1], RetriesInARow(steps, i - 1));
    }
  }

  /** Whatever the builds before it and wherever they stopped: an ordinary build, and a retry whose manifest an ordinary
      build left, call the provider only for chunks that are not on disk. */
  lemma PayingTwiceNeedsTwoRetries(world: World, states: seq<State>, steps: seq<Step>, i: nat)
    requires History(world, states, steps) && i < |steps| && RetriesInARow(steps, i) <= 1
    ensures states[i + 1].calls == states[i].calls
      || exists file :: file !in states[i].disk.files && states[i + 1].calls == states[i].calls + [Call(file, false)]
  {
    HistoryKeepsInv(world, states, steps);
    HistoryKeepsLineage(world, states, steps, i);
    assert Follows(world, states, steps, i);
    if steps[i].Resolve? {
      var index := steps[i].index;
      if !states[i].run.retryFailed {
        OrdinaryBuildPaysOnlyForMissing(world, states[i], index, steps[i].provided);
      }
      assert states[i + 1].calls == states[i].calls || states[i].run.plan[index].file !in states[i].disk.files;
    }
  }

  // ----- a history in which a retry pays twice -----

  ghost predicate Reached(world: World, end: State) {
    exists states, steps :: History(world, states, steps) && states[|steps|] == end
  }

  lemma NothingDone(world: World) returns (start: State)
    ensures start == State(Disk(map[], None), NoRun, []) && Reached(world, start)
  {
    start := State(Disk(map[], None), NoRun, []);
    var states, steps: seq<Step> := [start], [];
    assert History(world, states, steps);
    assert states[|steps|] == start;
  }

  lemma Then(world: World, end: State, step: Step) returns (next: State)
    requires Reached(world, end) && Enabled(world, end, step)
    ensures next == After(world, end, step) && Reached(world, next)
  {
    var states, steps :| History(world, states, steps) && states[|steps|] == end;
    next := After(world, end, step);
    var longer, more := states + [next], steps + [step];
    forall i | 0 <= i < |more| ensures Follows(world, longer, more, i) {
      if i < |steps| {
        assert Follows(world, states, steps, i);
      }
    }
    assert History(world, longer, more);
    assert longer[|more|] == next;
  }

  /** A build of two chunks under way. */
  function TwoUnderWay(files: map<string, Audio>, saved: seq<ChunkRecord>, a: Job, b: Job, retryFailed: bool, previous: seq<ChunkRecord>,
                       records: seq<ChunkRecord>, first: Stage, second: Stage, calls: seq<Call>): State {
    State(Disk(files, Some(saved)), Building([a, b], retryFailed, previous, records, [first, second]), calls)
  }

  lemma BeginTwo(world: World, s: State, a: Job, b: Job, retryFailed: bool)
    requires s.run.NoRun? && a.file != b.file
    requires retryFailed ==> s.disk.manifest.Some? && (MayRetry(s.disk.manifest.value, a) || MayRetry(s.disk.manifest.value, b))
    ensures Enabled(world, s, Begin([a, b], retryFailed))
    ensures After(world, s, Begin([a, b], retryFailed))
      == TwoUnderWay(s.disk.files, [Planned(a), Planned(b)], a, b, retryFailed,
                     if s.disk.manifest.Some? then s.disk.manifest.value else [], [Planned(a), Planned(b)], Waiting, Waiting, s.calls)
  {
    var plan := [a, b];
    assert plan[0] == a && plan[1] == b;
    assert PlannedAll(plan) == [Planned(a), Planned(b)];
    assert seq(|plan|, _ => Waiting) == [Waiting, Waiting];
  }

  lemma UpdateTwo<T>(x: T, y: T, z: T)
    ensures [x, y][0 := z] == [z, y] && [x, y][1 := z] == [x, z]
  {
  }

  function FailedRecord(job: Job, error: string): ChunkRecord {
    Planned(job).(status := ChunkStatus.Failed, error := Some(error))
  }

  /** The first chunk failed, the second is written, and a crash lost the second one's record. */
  function Crashed(a: Job, b: Job, first: Audio): State {
    State(Disk(map[b.file := first], Some([FailedRecord(a, "synthesis failed"), Planned(b)])), NoRun,
          [Call(a.file, false), Call(b.file, false)])
  }

  /** A retry has failed the first chunk again and refused the second. */
  function Refused(a: Job, b: Job, first: Audio): State {
    State(Disk(map[b.file := first], Some([FailedRecord(a, "synthesis failed"), FailedRecord(b, "refused by the failed-only retry")])),
          NoRun, [Call(a.file, false), Call(b.file, false), Call(a.file, false)])
  }

  /** A build of two chunks: the first fails and is checkpointed, the second is written, then the build crashes. */
  lemma CrashAfterWrite(world: World, a: Job, b: Job, first: Audio)
    requires a.file != b.file && world.valid(b.file, first)
    ensures Reached(world, Crashed(a, b, first))
  {
    var start := NothingDone(world);
    var bare, failed := [Planned(a), Planned(b)], Finished(Failure("synthesis failed"));
    BeginTwo(world, start, a, b, false);
    var end := Then(world, start, Begin([a, b], false));
    end := Then(world, end, Resolve(0, None));
    UpdateTwo(Waiting, Waiting, failed);
    UpdateTwo(failed, Waiting, Finished(Fresh(first)));
    assert [] + [Call(a.file, false)] == [Call(a.file, false)];
    assert end == TwoUnderWay(map[], bare, a, b, false, [], bare, failed, Waiting, [Call(a.file, false)]);
    end := Then(world, end, Resolve(1, Some(first)));
    assert [Call(a.file, false)] + [Call(b.file, false)] == [Call(a.file, false), Call(b.file, false)];
    assert map[][b.file := first] == map[b.file := first];
    assert end == TwoUnderWay(map[b.file := first], bare, a, b, false, [], bare, failed, Finished(Fresh(first)),
                              [Call(a.file, false), Call(b.file, false)]);
    CrashBeforeSecondIsSaved(world, a, b, first);
  }

  lemma CrashBeforeSecondIsSaved(world: World, a: Job, b: Job, first: Audio)
    requires Reached(world, TwoUnderWay(map[b.file := first], [Planned(a), Planned(b)], a, b, false, [], [Planned(a), Planned(b)],
      Finished(Failure("synthesis failed")), Finished(Fresh(first)), [Call(a.file, false), Call(b.file, false)]))
    ensures Reached(world, Crashed(a, b, first))
  {
    var start := TwoUnderWay(map[b.file := first], [Planned(a), Planned(b)], a, b, false, [], [Planned(a), Planned(b)],
      Finished(Failure("synthesis failed")), Finished(Fresh(first)), [Call(a.file, false), Call(b.file, false)]);
    UpdateTwo(Planned(a), Planned(b), FailedRecord(a, "synthesis failed"));
    var end := Then(world, start, Enter(0));
    end := Then(world, end, Checkpoint);
    end := Then(world, end, Stop);
    assert end == Crashed(a, b, first);
  }

  /** A retry for the first chunk finds the second neither failed nor complete, refuses it and records it as failed. */
  lemma RefusingRetry(world: World, a: Job, b: Job, first: Audio)
    requires a.file != b.file && Reached(world, Crashed(a, b, first))
    ensures Reached(world, Refused(a, b, first))
  {
    var start := Crashed(a, b, first);
    var bare, previous := [Planned(a), Planned(b)], start.disk.manifest.value;
    var calls := [Call(a.file, false), Call(b.file, false), Call(a.file, false)];
    var failed, refused := Finished(Failure("synthesis failed")), Finished(Failure("refused by the failed-only retry"));
    UpdateTwo(Waiting, Waiting, failed);
    UpdateTwo(failed, Waiting, refused);
    assert start.calls + [Call(a.file, false)] == calls;
    FindInTwo(previous, a.file, b.file);
    BeginTwo(world, start, a, b, true);
    var end := Then(world, start, Begin([a, b], true));
    end := Then(world, end, Resolve(0, None));
    assert end == TwoUnderWay(map[b.file := first], bare, a, b, true, previous, bare, failed, Waiting, calls);
    end := Then(world, end, Resolve(1, None));
    assert end == TwoUnderWay(map[b.file := first], bare, a, b, true, previous, bare, failed, refused, calls);
    FinishTwo(world, a, b, previous, map[b.file := first], "synthesis failed", "refused by the failed-only retry", calls);
  }

  lemma FindInTwo(records: seq<ChunkRecord>, a: string, b: string)
    requires |records| == 2 && records[0].file == a != b == records[1].file
    ensures Find(records, a) == Some(records[0]) && Find(records, b) == Some(records[1])
  {
    assert records[..1][0] == records[0];
  }

  lemma FinishTwo(world: World, a: Job, b: Job, previous: seq<ChunkRecord>, files: map<string, Audio>, error1: string, error2: string,
                  calls: seq<Call>)
    requires Reached(world, TwoUnderWay(files, [Planned(a), Planned(b)], a, b, true, previous, [Planned(a), Planned(b)],
      Finished(Failure(error1)), Finished(Failure(error2)), calls))
    ensures Reached(world, State(Disk(files, Some([FailedRecord(a, error1), FailedRecord(b, error2)])), NoRun, calls))
  {
    var start := TwoUnderWay(files, [Planned(a), Planned(b)], a, b, true, previous, [Planned(a), Planned(b)],
      Finished(Failure(error1)), Finished(Failure(error2)), calls);
    UpdateTwo(Planned(a), Planned(b), FailedRecord(a, error1));
    UpdateTwo(FailedRecord(a, error1), Planned(b), FailedRecord(b, error2));
    UpdateTwo(Finished(Failure(error1)), Finished(Failure(error2)), Recorded);
    UpdateTwo(Recorded, Finished(Failure(error2)), Recorded);
    var end := Then(world, start, Enter(0));
    end := Then(world, end, Enter(1));
    end := Then(world, end, Finish);
    assert end == State(Disk(files, Some([FailedRecord(a, error1), FailedRecord(b, error2)])), NoRun, calls);
  }

  /** A build loses the record of a written chunk in a crash; the next retry, run for another failure, refuses that
      chunk and thereby records it as failed; the retry after that pays for it again, its file being there. */
  lemma RetryCanRepay(world: World, a: Job, b: Job, first: Audio, second: Audio)
    requires a.file != b.file && world.valid(b.file, first) && world.valid(b.file, second)
    ensures exists end ::
      && Reached(world, end)
      && end.calls == [Call(a.file, false), Call(b.file, false), Call(a.file, false), Call(b.file, true)]
  {
    CrashAfterWrite(world, a, b, first);
    RefusingRetry(world, a, b, first);
    var start := Refused(a, b, first);
    FindInTwo(start.disk.manifest.value, a.file, b.file);
    BeginTwo(world, start, a, b, true);
    var end := Then(world, start, Begin([a, b], true));
    end := Then(world, end, Resolve(1, Some(second)));
    assert Reached(world, end) && end.calls == [Call(a.file, false), Call(b.file, false), Call(a.file, false), Call(b.file, true)];
  }
}
