/** The audiobook build over one directory as a crash-and-resume machine: any number of builds, ordinary or retrying
    failures only, each free to stop between any two disk writes
    (crates/bookforge-audio/src/builder.rs:548-645, 664-739, 753-967). */
module ResumableBuild {
  import opened Options
  import opened Manifest

  /** A planned chunk: its file name and its synthesis hash. */
  datatype Job = Job(file: string, synthesis: string)

  /** The parts of the world a build does not control: the audio hash and the payload check, which a chunk's file name
      fixes the format of. */
  datatype World = World(hash: AudioHash, valid: (string, Audio) -> bool)

  datatype Disk = Disk(files: map<string, Audio>, manifest: Option<seq<ChunkRecord>>)

  /** A chunk's task: not finished, finished, or finished and entered in the manifest in memory. */
  datatype Stage = Waiting | Finished(resolution: Resolution) | Recorded

  datatype Run = NoRun | Building(
    plan: seq<Job>,
    retryFailed: bool,
    previous: seq<ChunkRecord>,   // the manifest found at the start
    records: seq<ChunkRecord>,    // the manifest in memory
    stages: seq<Stage>)

  /** A call of the speech provider: for which file, and whether that file was there already. */
  datatype Call = Call(file: string, existed: bool)

  datatype State = State(disk: Disk, run: Run, calls: seq<Call>)

  ghost predicate Init(s: State) {
    s == State(Disk(map[], None), NoRun, [])
  }

  function Planned(job: Job): ChunkRecord {
    ChunkRecord(job.file, job.synthesis, Pending, None, None, None)
  }

  function PlannedAll(plan: seq<Job>): (r: seq<ChunkRecord>)
    ensures |r| == |plan| && forall i | 0 <= i < |r| :: r[i] == Planned(plan[i])
  {
    seq(|plan|, i requires 0 <= i < |plan| => Planned(plan[i]))
  }

  /** The records by file name; a later record replaces an earlier one of the same name. */
  function Find(records: seq<ChunkRecord>, file: string): Option<ChunkRecord> {
    if records == [] then None
    else
      var last := records[|records| - 1];
      if last.file == file then Some(last) else Find(records[..|records| - 1], file)
  }

  predicate DistinctFiles(plan: seq<Job>) {
    forall i, j | 0 <= i < j < |plan| :: plan[i].file != plan[j].file
  }

  /** A failed-only retry may synthesize this chunk. */
  predicate MayRetry(previous: seq<ChunkRecord>, job: Job) {
    var record := Find(previous, job.file);
    record.Some? && record.value.synthesis == job.synthesis && record.value.status == Failed
  }

  /** `read_valid_cached_audio`: the file, unless its size, its payload or its hash speak against it. */
  function ReadValidCachedAudio(world: World, files: map<string, Audio>, file: string, expected: Option<ChunkRecord>): Option<Audio> {
    if file !in files then None
    else
      var audio := files[file];
      if expected.Some? && expected.value.bytes.Some? && expected.value.bytes.value != |audio| then None
      else if !world.valid(file, audio) then None
      else if expected.Some? && expected.value.audioHash.Some? && expected.value.audioHash.value != world.hash(audio) then None
      else Some(audio)
  }

  /** What a chunk's task decides before it would call the provider. */
  datatype Decision = UseCache(audio: Audio) | GiveUp | CallProvider

  function Decide(world: World, files: map<string, Audio>, retryFailed: bool, previous: seq<ChunkRecord>, job: Job): Decision {
    var record := Find(previous, job.file);
    var cached := ReadValidCachedAudio(world, files, job.file, record);
    if !retryFailed then
      if cached.Some? then UseCache(cached.value) else CallProvider
    else if MayRetry(previous, job) then CallProvider
    else if record.Some? && record.value.synthesis == job.synthesis && IsComplete(record.value.status) then
      if cached.Some? then UseCache(cached.value) else GiveUp
    else GiveUp
  }

  // ----- the steps -----

  datatype Step =
    | Begin(plan: seq<Job>, retryFailed: bool)       // load the old manifest, replace it by the bare plan
    | Resolve(index: nat, provided: Option<Audio>)   // run a chunk's task; None when synthesis or the write fails
    | Enter(index: nat)                              // enter a finished task in the manifest in memory
    | Checkpoint
    | Finish                                         // all tasks entered: last checkpoint
    | Stop                                           // crash, cancellation, or a checkpoint that fails

  predicate Enabled(world: World, s: State, step: Step) {
    match step
    case Begin(plan, retryFailed) =>
      && s.run.NoRun? && plan != [] && DistinctFiles(plan)
      && (retryFailed ==> s.disk.manifest.Some? && exists i | 0 <= i < |plan| :: MayRetry(s.disk.manifest.value, plan[i]))
    case Resolve(index, provided) =>
      && s.run.Building? && index < |s.run.stages| && index < |s.run.plan| && s.run.stages[index].Waiting?
      && (provided.Some? ==> world.valid(s.run.plan[index].file, provided.value))
    case Enter(index) =>
      s.run.Building? && index < |s.run.stages| && index < |s.run.records| && s.run.stages[index].Finished?
    case Checkpoint => s.run.Building?
    case Finish => s.run.Building? && forall i | 0 <= i < |s.run.stages| :: s.run.stages[i].Recorded?
    case Stop => s.run.Building?
  }

  function Settled(s: State, index: nat, resolution: Resolution): State
    requires s.run.Building? && index < |s.run.stages|
  {
    s.(run := s.run.(stages := s.run.stages[index := Finished(resolution)]))
  }

  function After(world: World, s: State, step: Step): State
    requires Enabled(world, s, step)
  {
    match step
    case Begin(plan, retryFailed) =>
      var previous := if s.disk.manifest.Some? then s.disk.manifest.value else [];
      s.(disk := s.disk.(manifest := Some(PlannedAll(plan))),
         run := Building(plan, retryFailed, previous, PlannedAll(plan), seq(|plan|, _ => Waiting)))
    case Resolve(index, provided) =>
      var job := s.run.plan[index];
      (match Decide(world, s.disk.files, s.run.retryFailed, s.run.previous, job)
       case UseCache(audio) => Settled(s, index, Reused(audio))
       case GiveUp => Settled(s, index, Failure("refused by the failed-only retry"))
       case CallProvider =>
         var called := s.(calls := s.calls + [Call(job.file, job.file in s.disk.files)]);
         if provided.None? then Settled(called, index, Failure("synthesis failed"))
         else Settled(called, index, Fresh(provided.value)).(disk := s.disk.(files := s.disk.files[job.file := provided.value])))
    case Enter(index) =>
      s.(run := s.run.(records := s.run.records[index := Resolved(s.run.records[index], s.run.stages[index].resolution, world.hash)],
                       stages := s.run.stages[index := Recorded]))
    case Checkpoint => s.(disk := s.disk.(manifest := Some(s.run.records)))
    case Finish => s.(disk := s.disk.(manifest := Some(s.run.records)), run := NoRun)
    case Stop => s.(run := NoRun)
  }

  // ----- what every step keeps -----

  /** A record has an audio hash and a size exactly when it is complete, and then they are those of the file on disk. */
  ghost predicate Matches(world: World, files: map<string, Audio>, record: ChunkRecord) {
    && (IsComplete(record.status) <==> record.audioHash.Some?)
    && (record.bytes.Some? ==> record.audioHash.Some?)
    && (record.audioHash.Some? ==>
          && record.file in files && record.audioHash.value == world.hash(files[record.file])
          && record.bytes == Some(|files[record.file]|))
  }

  ghost predicate AllMatch(world: World, files: map<string, Audio>, records: seq<ChunkRecord>) {
    forall i | 0 <= i < |records| :: Matches(world, files, records[i])
  }

  ghost predicate FilesAreValid(world: World, files: map<string, Audio>) {
    forall f | f in files :: world.valid(f, files[f])
  }

  ghost predicate RunIsShaped(run: Run) {
    run.Building? ==>
      && DistinctFiles(run.plan) && |run.records| == |run.plan| == |run.stages|
      && (forall i | 0 <= i < |run.plan| :: run.records[i].file == run.plan[i].file)
      && (forall i | 0 <= i < |run.plan| && !run.stages[i].Recorded? :: run.records[i] == Planned(run.plan[i]))
  }

  /** What a finished task says it used or wrote is what is on disk. */
  ghost predicate FinishedAreOnDisk(s: State) {
    s.run.Building? ==>
      && |s.run.stages| == |s.run.plan|
      && forall i | 0 <= i < |s.run.plan| && s.run.stages[i].Finished? ::
           match s.run.stages[i].resolution
           case Reused(audio) => s.run.plan[i].file in s.disk.files && s.disk.files[s.run.plan[i].file] == audio
           case Fresh(audio) => s.run.plan[i].file in s.disk.files && s.disk.files[s.run.plan[i].file] == audio
           case Failure(_) => true
  }

  /** The checkpoint on disk never runs ahead of memory. */
  ghost predicate CheckpointLags(s: State) {
    s.run.Building? ==>
      && |s.run.stages| == |s.run.records| == |s.run.plan|
      && s.disk.manifest.Some? && |s.disk.manifest.value| == |s.run.records|
      && forall i | 0 <= i < |s.run.records| ::
           var saved := s.disk.manifest.value[i];
           saved == s.run.records[i] || saved == Planned(s.run.plan[i])
  }

  /** The old record of a chunk whose task has not run yet still describes the file on disk. */
  ghost predicate PreviousStillHolds(world: World, s: State) {
    s.run.Building? ==>
      && |s.run.stages| == |s.run.plan|
      && forall i | 0 <= i < |s.run.plan| && s.run.stages[i].Waiting? ::
           PreviousMatches(world, s.disk.files, s.run.previous, s.run.plan[i].file)
  }

  ghost predicate PreviousMatches(world: World, files: map<string, Audio>, previous: seq<ChunkRecord>, file: string) {
    var record := Find(previous, file);
    record.Some? ==> Matches(world, files, record.value)
  }

  ghost predicate Inv(world: World, s: State) {
    && FilesAreValid(world, s.disk.files)
    && (s.disk.manifest.Some? ==> AllMatch(world, s.disk.files, s.disk.manifest.value))
    && RunIsShaped(s.run) && FinishedAreOnDisk(s) && CheckpointLags(s) && PreviousStillHolds(world, s)
    && (s.run.Building? ==> AllMatch(world, s.disk.files, s.run.records))
  }

  lemma {:induction false} FindMatches(world: World, files: map<string, Audio>, records: seq<ChunkRecord>, file: string)
    requires AllMatch(world, files, records)
    ensures Find(records, file).Some? ==> Find(records, file).value.file == file && Matches(world, files, Find(records, file).value)
  {
    if records != [] && records[|records| - 1].file != file {
      FindMatches(world, files, records[..|records| - 1], file);
    }
  }

  lemma BeginKeepsInv(world: World, s: State, plan: seq<Job>, retryFailed: bool)
    requires Inv(world, s) && Enabled(world, s, Begin(plan, retryFailed))
    ensures Inv(world, After(world, s, Begin(plan, retryFailed)))
  {
    var t := After(world, s, Begin(plan, retryFailed));
    forall i | 0 <= i < |plan|
      ensures PreviousMatches(world, t.disk.files, t.run.previous, plan[i].file)
    {
      FindMatches(world, s.disk.files, t.run.previous, plan[i].file);
    }
  }

  /** Writing one chunk's file leaves the records of all other chunks matching. */
  lemma OtherFileMatches(world: World, files: map<string, Audio>, file: string, audio: Audio, record: ChunkRecord)
    requires Matches(world, files, record) && record.file != file
    ensures Matches(world, files[file := audio], record)
  {
  }

  lemma {:induction false} FindHasFile(records: seq<ChunkRecord>, file: string)
    ensures Find(records, file).Some? ==> Find(records, file).value.file == file
  {
    if records != [] && records[|records| - 1].file != file {
      FindHasFile(records[..|records| - 1], file);
    }
  }

  lemma ResolveKeepsInv(world: World, s: State, index: nat, provided: Option<Audio>)
    requires Inv(world, s) && Enabled(world, s, Resolve(index, provided))
    ensures Inv(world, After(world, s, Resolve(index, provided)))
  {
    var job := s.run.plan[index];
    var called := s.(calls := s.calls + [Call(job.file, job.file in s.disk.files)]);
    match Decide(world, s.disk.files, s.run.retryFailed, s.run.previous, job)
    case UseCache(audio) => SettleKeepsInv(world, s, index, Reused(audio));
    case GiveUp => SettleKeepsInv(world, s, index, Failure("refused by the failed-only retry"));
    case CallProvider =>
      if provided.None? {
        SettleKeepsInv(world, called, index, Failure("synthesis failed"));
      } else {
        WriteKeepsInv(world, called, index, provided.value);
      }
  }

  /** A task that ends without writing. */
  lemma SettleKeepsInv(world: World, s: State, index: nat, resolution: Resolution)
    requires Inv(world, s) && s.run.Building? && index < |s.run.plan| && s.run.stages[index].Waiting?
    requires match resolution
      case Reused(audio) => s.run.plan[index].file in s.disk.files && s.disk.files[s.run.plan[index].file] == audio
      case Fresh(_) => false
      case Failure(_) => true
    ensures Inv(world, Settled(s, index, resolution))
  {
  }

  function Written(s: State, index: nat, audio: Audio): State
    requires s.run.Building? && index < |s.run.stages| && index < |s.run.plan|
  {
    Settled(s, index, Fresh(audio)).(disk := s.disk.(files := s.disk.files[s.run.plan[index].file := audio]))
  }

  /** A task that writes its chunk's file. */
  lemma WriteKeepsInv(world: World, s: State, index: nat, audio: Audio)
    requires Inv(world, s) && s.run.Building? && index < |s.run.plan| && s.run.stages[index].Waiting?
    requires world.valid(s.run.plan[index].file, audio)
    ensures Inv(world, Written(s, index, audio))
  {
    var t := Written(s, index, audio);
    WriteKeepsMatches(world, s, index, audio);
    WriteKeepsFinished(s, index, audio);
    assert PreviousStillHolds(world, t) by {
      WriteKeepsPrevious(world, s, index, audio);
    }
    assert CheckpointLags(t) && RunIsShaped(t.run) && FilesAreValid(world, t.disk.files);
  }

  lemma WriteKeepsFinished(s: State, index: nat, audio: Audio)
    requires s.run.Building? && RunIsShaped(s.run) && FinishedAreOnDisk(s) && index < |s.run.plan|
    ensures FinishedAreOnDisk(Written(s, index, audio))
  {
    var t := Written(s, index, audio);
    forall i | 0 <= i < |t.run.plan| && i != index ensures t.run.stages[i] == s.run.stages[i] && t.run.plan[i].file != t.run.plan[index].file {
    }
  }

  /** Writing the file of a chunk that is not recorded yet leaves every record true of its file. */
  lemma WriteKeepsMatches(world: World, s: State, index: nat, audio: Audio)
    requires Inv(world, s) && s.run.Building? && index < |s.run.plan| && s.run.stages[index].Waiting?
    ensures AllMatch(world, s.disk.files[s.run.plan[index].file := audio], s.run.records)
    ensures AllMatch(world, s.disk.files[s.run.plan[index].file := audio], s.disk.manifest.value)
  {
    var file := s.run.plan[index].file;
    var saved := s.disk.manifest.value;
    assert s.run.records[index] == Planned(s.run.plan[index]) == saved[index];
    forall i | 0 <= i < |s.run.records|
      ensures Matches(world, s.disk.files[file := audio], s.run.records[i]) && Matches(world, s.disk.files[file := audio], saved[i])
    {
      if i != index {
        assert s.run.records[i].file == s.run.plan[i].file == saved[i].file;
        OtherFileMatches(world, s.disk.files, file, audio, s.run.records[i]);
        OtherFileMatches(world, s.disk.files, file, audio, saved[i]);
      }
    }
  }

  lemma WriteKeepsPrevious(world: World, s: State, index: nat, audio: Audio)
    requires Inv(world, s) && s.run.Building? && index < |s.run.plan| && s.run.stages[index].Waiting?
    ensures forall i | 0 <= i < |s.run.plan| && i != index && s.run.stages[i].Waiting? ::
      PreviousMatches(world, s.disk.files[s.run.plan[index].file := audio], s.run.previous, s.run.plan[i].file)
  {
    var file := s.run.plan[index].file;
    forall i | 0 <= i < |s.run.plan| && i != index && s.run.stages[i].Waiting?
      ensures PreviousMatches(world, s.disk.files[file := audio], s.run.previous, s.run.plan[i].file)
    {
      assert PreviousMatches(world, s.disk.files, s.run.previous, s.run.plan[i].file);
      FindHasFile(s.run.previous, s.run.plan[i].file);
    }
  }

  lemma EnterKeepsInv(world: World, s: State, index: nat)
    requires Inv(world, s) && Enabled(world, s, Enter(index))
    ensures Inv(world, After(world, s, Enter(index)))
  {
  }

  lemma StepKeepsInv(world: World, s: State, step: Step)
    requires Inv(world, s) && Enabled(world, s, step)
    ensures Inv(world, After(world, s, step))
  {
    match step
    case Begin(plan, retryFailed) => BeginKeepsInv(world, s, plan, retryFailed);
    case Resolve(index, provided) => ResolveKeepsInv(world, s, index, provided);
    case Enter(index) => EnterKeepsInv(world, s, index);
    case _ =>
  }

  // ----- whole histories -----

  ghost predicate History(world: World, states: seq<State>, steps: seq<Step>) {
    && |states| == |steps| + 1 && Init(states[0])
    && forall i | 0 <= i < |steps| :: Follows(world, states, steps, i)
  }

  ghost predicate Follows(world: World, states: seq<State>, steps: seq<Step>, i: nat)
    requires |states| == |steps| + 1 && i < |steps|
  {
    Enabled(world, states[i], steps[i]) && states[i + 1] == After(world, states[i], steps[i])
  }

  lemma HistoryKeepsInv(world: World, states: seq<State>, steps: seq<Step>)
    requires History(world, states, steps)
    ensures forall i | 0 <= i < |states| :: Inv(world, states[i])
  {
    for i := 0 to |steps|
      invariant forall k | 0 <= k <= i :: Inv(world, states[k])
    {
      assert Follows(world, states, steps, i);
      StepKeepsInv(world, states[i], steps[i]);
    }
  }

  /** After any number of builds, each stopped anywhere: an audio hash in the manifest on disk is the hash of the
      file on disk, and the size recorded with it is its size. */
  lemma ManifestMatchesFiles(world: World, states: seq<State>, steps: seq<Step>, i: nat, k: nat)
    requires History(world, states, steps) && i < |states|
    requires states[i].disk.manifest.Some? && k < |states[i].disk.manifest.value|
    ensures Matches(world, states[i].disk.files, states[i].disk.manifest.value[k])
  {
    HistoryKeepsInv(world, states, steps);
  }

  /** An ordinary build calls the provider for a chunk exactly when the chunk's file is not there; otherwise it reuses
      the file as it is. */
  lemma OrdinaryBuildPaysOnlyForMissing(world: World, s: State, index: nat, provided: Option<Audio>)
    requires Inv(world, s) && Enabled(world, s, Resolve(index, provided)) && !s.run.retryFailed
    ensures var file := s.run.plan[index].file;
      Decide(world, s.disk.files, false, s.run.previous, s.run.plan[index])
        == if file in s.disk.files then UseCache(s.disk.files[file]) else CallProvider
  {
    FindHasFile(s.run.previous, s.run.plan[index].file);
  }

  /** So no ordinary build, in any history, pays for a chunk that is already written or changes it. */
  lemma OrdinaryBuildsNeverRepay(world: World, states: seq<State>, steps: seq<Step>, i: nat, file: string)
    requires History(world, states, steps) && i < |steps|
    requires states[i].run.Building? ==> !states[i].run.retryFailed
    requires file in states[i].disk.files
    ensures KeepsAudio(states[i], states[i + 1], file)
  {
    HistoryKeepsInv(world, states, steps);
    assert Follows(world, states, steps, i);
    var s, step := states[i], steps[i];
    if step.Resolve? {
      OrdinaryBuildPaysOnlyForMissing(world, s, step.index, step.provided);
      var planned := s.run.plan[step.index].file;
      assert states[i + 1].calls == s.calls || (planned != file && states[i + 1].calls == s.calls + [Call(planned, false)]);
    }
  }

  /** The calls that `after` adds are for files other than `file`, and for files not there yet. */
  ghost predicate PaysForOthers(before: seq<Call>, after: seq<Call>, file: string) {
    before <= after && forall k | |before| <= k < |after| :: after[k].file != file && !after[k].existed
  }

  /** The file is there with the same audio, and nothing was paid for it meanwhile. */
  ghost predicate KeepsAudio(before: State, after: State, file: string) {
    && file in before.disk.files && file in after.disk.files && after.disk.files[file] == before.disk.files[file]
    && PaysForOthers(before.calls, after.calls, file)
  }

  lemma KeepsAudioAgain(a: State, b: State, c: State, file: string)
    requires KeepsAudio(a, b, file) && KeepsAudio(b, c, file)
    ensures KeepsAudio(a, c, file)
  {
    PaysForOthersAgain(a.calls, b.calls, c.calls, file);
  }

  lemma PaysForOthersAgain(a: seq<Call>, b: seq<Call>, c: seq<Call>, file: string)
    requires PaysForOthers(a, b, file) && PaysForOthers(b, c, file)
    ensures PaysForOthers(a, c, file)
  {
    forall k | |a| <= k < |c| ensures c[k].file != file && !c[k].existed {
      if k < |b| {
        assert c[k] == b[k];
      }
    }
  }

  ghost predicate OnlyOrdinary(steps: seq<Step>) {
    forall i | 0 <= i < |steps| && steps[i].Begin? :: !steps[i].retryFailed
  }

  lemma {:induction false} OrdinaryStates(world: World, states: seq<State>, steps: seq<Step>, i: nat)
    requires History(world, states, steps) && OnlyOrdinary(steps) && i < |states|
    ensures states[i].run.Building? ==> !states[i].run.retryFailed
  {
    if i > 0 {
      OrdinaryStates(world, states, steps, i - 1);
      assert Follows(world, states, steps, i - 1);
    }
  }

  /** In a history of ordinary builds every chunk is paid for once: the audio first written stays, and no call follows. */
  lemma {:induction false} FirstAudioIsKept(world: World, states: seq<State>, steps: seq<Step>, i: nat, j: nat, file: string)
    requires History(world, states, steps) && OnlyOrdinary(steps) && i <= j < |states| && file in states[i].disk.files
    ensures KeepsAudio(states[i], states[j], file)
    decreases j
  {
    if i < j {
      FirstAudioIsKept(world, states, steps, i, j - 1, file);
      assert KeepsAudio(states[j - 1], states[j], file) by {
        OrdinaryStates(world, states, steps, j - 1);
        assert file in states[j - 1].disk.files;
        OrdinaryBuildsNeverRepay(world, states, steps, j - 1, file);
      }
      KeepsAudioAgain(states[i], states[j - 1], states[j], file);
    }
  }

  /** A file once written stays on disk, whatever follows. */
  lemma {:induction false} FilesStay(world: World, states: seq<State>, steps: seq<Step>, i: nat, j: nat, file: string)
    requires History(world, states, steps) && i <= j < |states| && file in states[i].disk.files
    ensures file in states[j].disk.files
    decreases j
  {
    if i < j {
      FilesStay(world, states, steps, i, j - 1, file);
      assert Follows(world, states, steps, j - 1);
    }
  }

  // ----- failed-only retries -----

  /** A failed-only retry calls the provider exactly for the chunks recorded as failed under the same synthesis hash,
      reuses exactly those recorded as complete under it, and refuses the rest. */
  lemma RetryPaysOnlyForFailed(world: World, s: State, index: nat, provided: Option<Audio>)
    requires Inv(world, s) && Enabled(world, s, Resolve(index, provided)) && s.run.retryFailed
    ensures var job := s.run.plan[index];
      var record := Find(s.run.previous, job.file);
      var known := record.Some? && record.value.synthesis == job.synthesis;
      && (known && IsComplete(record.value.status) ==> job.file in s.disk.files)
      && Decide(world, s.disk.files, true, s.run.previous, job)
           == if known && record.value.status == Failed then CallProvider
              else if known && IsComplete(record.value.status) then UseCache(s.disk.files[job.file])
              else GiveUp
  {
    FindHasFile(s.run.previous, s.run.plan[index].file);
  }
}
