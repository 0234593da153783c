/** The build manifest while finished synthesis tasks are collected, in whatever order they finish
    (crates/bookforge-audio/src/builder.rs:574-595, 753-892, 931-968). */
module Manifest {
  import opened Options
  import Sorting

  type Audio = seq<nat>
  type AudioHash = Audio -> string

  datatype ChunkStatus = Pending | Synthesized | Cached | Failed

  datatype ChunkRecord = ChunkRecord(
    file: string,
    synthesis: string,
    status: ChunkStatus,
    audioHash: Option<string>,
    bytes: Option<nat>,
    error: Option<string>)

  datatype RunStatus = Running | Succeeded | RunFailed | Cancelled

  datatype Snapshot = Snapshot(chunks: seq<ChunkRecord>, completedChunks: nat, status: RunStatus)

  const MANIFEST_CHECKPOINT_INTERVAL: nat := 16

  predicate IsComplete(status: ChunkStatus) {
    status.Synthesized? || status.Cached?
  }

  function CountComplete(chunks: seq<ChunkRecord>): nat {
    if chunks == [] then 0
    else CountComplete(chunks[..|chunks| - 1]) + (if IsComplete(chunks[|chunks| - 1].status) then 1 else 0)
  }

  lemma {:induction false} CountAfterUpdate(chunks: seq<ChunkRecord>, index: nat, record: ChunkRecord)
    requires index < |chunks|
    ensures CountComplete(chunks[index := record]) + (if IsComplete(chunks[index].status) then 1 else 0)
         == CountComplete(chunks) + (if IsComplete(record.status) then 1 else 0)
  {
    var last := |chunks| - 1;
    var updated := chunks[index := record];
    if index < last {
      assert updated[..last] == chunks[..last][index := record];
      CountAfterUpdate(chunks[..last], index, record);
    } else {
      assert updated[..last] == chunks[..last];
    }
  }

  // ----- what a finished task brings -----

  datatype Resolution =
    | Reused(audio: Audio)      // the cached file is valid
    | Fresh(audio: Audio)       // synthesized and written
    | Failure(error: string)

  datatype Outcome = Outcome(index: nat, path: string, reportProgress: bool, resolution: Resolution)

  function Resolved(record: ChunkRecord, resolution: Resolution, hash: AudioHash): ChunkRecord {
    match resolution
    case Reused(audio) => record.(status := Cached, audioHash := Some(hash(audio)), bytes := Some(|audio|), error := None)
    case Fresh(audio) => record.(status := Synthesized, audioHash := Some(hash(audio)), bytes := Some(|audio|), error := None)
    case Failure(error) => record.(status := Failed, audioHash := None, bytes := None, error := Some(error))
  }

  /** After a task a record says how it ended, with the hash and size of the audio or the error, and of what chunk. */
  ghost predicate Says(record: ChunkRecord, before: ChunkRecord, resolution: Resolution, hash: AudioHash) {
    && record.file == before.file && record.synthesis == before.synthesis
    && match resolution
       case Reused(audio) =>
         record.status == Cached && record.audioHash == Some(hash(audio)) && record.bytes == Some(|audio|) && record.error == None
       case Fresh(audio) =>
         record.status == Synthesized && record.audioHash == Some(hash(audio)) && record.bytes == Some(|audio|) && record.error == None
       case Failure(error) =>
         record.status == Failed && record.audioHash == None && record.bytes == None && record.error == Some(error)
  }

  datatype Progress = Progress(done: nat, total: nat, skipped: bool, failed: bool)

  /** The counters and lists that grow while outcomes come in. */
  datatype Tally = Tally(synthesized: nat, skipped: nat, failures: seq<nat>, files: seq<string>, progress: seq<Progress>)

  const NOTHING_YET := Tally(0, 0, [], [], [])

  function Counted(tally: Tally, outcome: Outcome, announced: nat): Tally {
    var noted := if !outcome.reportProgress then tally.progress
      else tally.progress + [Progress(|tally.progress| + 1, announced, outcome.resolution.Reused?, outcome.resolution.Failure?)];
    match outcome.resolution
    case Reused(_) => tally.(skipped := tally.skipped + 1, files := tally.files + [outcome.path], progress := noted)
    case Fresh(_) => tally.(synthesized := tally.synthesized + 1, files := tally.files + [outcome.path], progress := noted)
    case Failure(_) => tally.(failures := tally.failures + [outcome.index], progress := noted)
  }

  /** A note is made of each outcome that reports: the next number, the announced total, and how it ended. */
  lemma OutcomeIsNoted(tally: Tally, outcome: Outcome, announced: nat)
    ensures var after := Counted(tally, outcome, announced);
      if outcome.reportProgress then
        && |after.progress| == |tally.progress| + 1 && after.progress[..|tally.progress|] == tally.progress
        && var note := after.progress[|tally.progress|];
           note.done == |tally.progress| + 1 && note.total == announced
           && note.skipped == outcome.resolution.Reused? && note.failed == outcome.resolution.Failure?
      else after.progress == tally.progress
  {
    assert (tally.progress + [Progress(|tally.progress| + 1, announced, outcome.resolution.Reused?, outcome.resolution.Failure?)])[..|tally.progress|]
      == tally.progress;
  }

  // ----- the outcome of a whole build, by chunk -----

  /** `byIndex` lists the outcome of every planned chunk at its place, all with different files. */
  ghost predicate IsOutcomeOf(byIndex: seq<Outcome>, chunks: seq<ChunkRecord>) {
    && |byIndex| == |chunks|
    && (forall i | 0 <= i < |byIndex| :: byIndex[i].index == i)
    && (forall i, j | 0 <= i < j < |byIndex| :: byIndex[i].path != byIndex[j].path)
  }

  /** `order` is an order in which these outcomes come in. */
  ghost predicate IsCompletionOrder(order: seq<Outcome>, byIndex: seq<Outcome>) {
    && |order| == |byIndex|
    && (forall k | 0 <= k < |order| :: order[k].index < |byIndex| && order[k] == byIndex[order[k].index])
    && (forall i, j | 0 <= i < j < |order| :: order[i].index != order[j].index)
  }

  ghost function Where(byIndex: seq<Outcome>, within: set<nat>, kind: Outcome -> bool): set<nat> {
    set i | i in within && i < |byIndex| && kind(byIndex[i])
  }

  function IsFresh(): Outcome -> bool { (o: Outcome) => o.resolution.Fresh? }
  function IsReused(): Outcome -> bool { (o: Outcome) => o.resolution.Reused? }
  function IsFailure(): Outcome -> bool { (o: Outcome) => o.resolution.Failure? }
  function IsSuccess(): Outcome -> bool { (o: Outcome) => !o.resolution.Failure? }
  function IsReported(): Outcome -> bool { (o: Outcome) => o.reportProgress }

  ghost function All(n: nat): (r: set<nat>)
    ensures |r| == n && forall i :: i in r <==> 0 <= i < n
  {
    if n == 0 then {} else All(n - 1) + {n - 1}
  }

  ghost function Paths(byIndex: seq<Outcome>, at: set<nat>): set<string> {
    set i | i in at && i < |byIndex| :: byIndex[i].path
  }

  /** The set of the indices that the first `n` outcomes of `order` resolve. */
  ghost function Seen(order: seq<Outcome>, n: nat): set<nat>
    requires n <= |order|
  {
    set k | 0 <= k < n :: order[k].index
  }

  lemma SeenOneMore(order: seq<Outcome>, byIndex: seq<Outcome>, n: nat, kind: Outcome -> bool)
    requires n < |order| && IsCompletionOrder(order, byIndex)
    ensures Seen(order, n + 1) == Seen(order, n) + {order[n].index} && order[n].index !in Seen(order, n)
    ensures Where(byIndex, Seen(order, n + 1), kind)
         == Where(byIndex, Seen(order, n), kind) + (if kind(order[n]) then {order[n].index} else {})
  {
  }

  lemma CountOneMore(order: seq<Outcome>, byIndex: seq<Outcome>, n: nat, kind: Outcome -> bool)
    requires n < |order| && IsCompletionOrder(order, byIndex)
    ensures |Where(byIndex, Seen(order, n + 1), kind)|
         == |Where(byIndex, Seen(order, n), kind)| + (if kind(order[n]) then 1 else 0)
  {
    SeenOneMore(order, byIndex, n, kind);
    var before := Where(byIndex, Seen(order, n), kind);
    assert order[n].index !in before;
    if kind(order[n]) {
      assert |before + {order[n].index}| == |before| + 1;
    } else {
      assert before + {} == before;
    }
  }

  lemma {:induction false} SeenHasSize(order: seq<Outcome>, byIndex: seq<Outcome>, n: nat)
    requires IsCompletionOrder(order, byIndex) && n <= |order|
    ensures |Seen(order, n)| == n
  {
    if n > 0 {
      SeenHasSize(order, byIndex, n - 1);
      assert Seen(order, n) == Seen(order, n - 1) + {order[n - 1].index};
      assert order[n - 1].index !in Seen(order, n - 1);
    } else {
      assert Seen(order, 0) == {};
    }
  }

  /** When all outcomes have come in, every chunk is resolved. */
  lemma SeenAll(order: seq<Outcome>, byIndex: seq<Outcome>)
    requires IsCompletionOrder(order, byIndex)
    ensures Seen(order, |order|) == All(|byIndex|)
  {
    SeenHasSize(order, byIndex, |order|);
    SubsetOfSameSize(Seen(order, |order|), All(|byIndex|));
  }

  lemma SubsetOfSameSize(a: set<nat>, b: set<nat>)
    requires a <= b && |a| == |b|
    ensures a == b
  {
    assert b == a + (b - a);
    assert |b| == |a| + |b - a|;
  }

  /** The tally of the chunks in `seen`: it depends on which they are, not on the order they came in. */
  ghost predicate CountsAre(tally: Tally, byIndex: seq<Outcome>, seen: set<nat>) {
    && tally.synthesized == |Where(byIndex, seen, IsFresh())|
    && tally.skipped == |Where(byIndex, seen, IsReused())|
    && |tally.failures| == |Where(byIndex, seen, IsFailure())|
    && |tally.progress| == |Where(byIndex, seen, IsReported())|
  }

  ghost predicate ListsAre(tally: Tally, byIndex: seq<Outcome>, seen: set<nat>) {
    && (set i | i in tally.failures) == Where(byIndex, seen, IsFailure())
    && Sorting.Elements(tally.files) == Paths(byIndex, Where(byIndex, seen, IsSuccess()))
  }

  ghost predicate ProgressCounts(tally: Tally, announced: nat) {
    forall j | 0 <= j < |tally.progress| :: tally.progress[j].done == j + 1 && tally.progress[j].total == announced
  }

  ghost predicate Distinct(files: seq<string>) {
    forall i, j | 0 <= i < j < |files| :: files[i] != files[j]
  }

  /** The records once the chunks in `seen` are resolved. */
  ghost predicate RecordsAre(chunks: seq<ChunkRecord>, planned: seq<ChunkRecord>, byIndex: seq<Outcome>, seen: set<nat>, hash: AudioHash)
    requires |byIndex| == |planned|
  {
    && |chunks| == |planned|
    && forall i | 0 <= i < |planned| :: chunks[i] == if i in seen then Resolved(planned[i], byIndex[i].resolution, hash) else planned[i]
  }

  ghost predicate Tallies(tally: Tally, byIndex: seq<Outcome>, seen: set<nat>, announced: nat) {
    && CountsAre(tally, byIndex, seen) && ListsAre(tally, byIndex, seen)
    && Distinct(tally.files) && ProgressCounts(tally, announced)
  }

  lemma TallyOutcome(tally: Tally, order: seq<Outcome>, byIndex: seq<Outcome>, chunks: seq<ChunkRecord>, k: nat, announced: nat)
    requires k < |order| && IsOutcomeOf(byIndex, chunks) && IsCompletionOrder(order, byIndex)
    requires Tallies(tally, byIndex, Seen(order, k), announced)
    ensures Tallies(Counted(tally, order[k], announced), byIndex, Seen(order, k + 1), announced)
  {
    CountOutcome(tally, order, byIndex, k, announced);
    ListOutcome(tally, order, byIndex, chunks, k, announced);
  }

  lemma AscendingIsDistinct(files: seq<string>)
    requires Sorting.Ascending(files)
    ensures Distinct(files)
  {
    forall i, j | 0 <= i < j < |files| ensures files[i] != files[j] {
      Sorting.LessIsTotal(files[i], files[j]);
    }
  }

  lemma CountOutcome(tally: Tally, order: seq<Outcome>, byIndex: seq<Outcome>, k: nat, announced: nat)
    requires k < |order| && IsCompletionOrder(order, byIndex) && CountsAre(tally, byIndex, Seen(order, k))
    ensures CountsAre(Counted(tally, order[k], announced), byIndex, Seen(order, k + 1))
  {
    CountOneMore(order, byIndex, k, IsFresh());
    CountOneMore(order, byIndex, k, IsReused());
    CountOneMore(order, byIndex, k, IsFailure());
    CountOneMore(order, byIndex, k, IsReported());
  }

  lemma ListOutcome(tally: Tally, order: seq<Outcome>, byIndex: seq<Outcome>, chunks: seq<ChunkRecord>, k: nat, announced: nat)
    requires k < |order| && IsOutcomeOf(byIndex, chunks) && IsCompletionOrder(order, byIndex)
    requires ListsAre(tally, byIndex, Seen(order, k)) && Distinct(tally.files)
    ensures ListsAre(Counted(tally, order[k], announced), byIndex, Seen(order, k + 1))
    ensures Distinct(Counted(tally, order[k], announced).files)
  {
    var next := Counted(tally, order[k], announced);
    SeenOneMore(order, byIndex, k, IsFailure());
    SeenOneMore(order, byIndex, k, IsSuccess());
    if order[k].resolution.Failure? {
      assert forall i :: i in next.failures <==> i in tally.failures || i == order[k].index;
    } else {
      AppendedElement(tally.files, order[k].path);
      assert order[k].path !in Sorting.Elements(tally.files);
      assert forall i | 0 <= i < |tally.files| :: tally.files[i] in Sorting.Elements(tally.files);
    }
  }

  lemma AppendedElement(files: seq<string>, path: string)
    ensures Sorting.Elements(files + [path]) == Sorting.Elements(files) + {path}
  {
    Sorting.InsertedElements(files, |files|, path);
    assert files[..|files|] + [path] + files[|files|..] == files + [path];
  }

  // ----- the manifest in memory and on disk -----

  class BuildManifest {
    var chunks: seq<ChunkRecord>
    var completedChunks: nat
    var status: RunStatus
    /** The last checkpoint. */
    var onDisk: Snapshot

    /** The counter counts the complete records. */
    ghost predicate Valid()
      reads this
    {
      completedChunks == CountComplete(chunks)
    }

    constructor (planned: seq<ChunkRecord>)
      requires forall i | 0 <= i < |planned| :: planned[i].status == Pending
      ensures Valid() && chunks == planned && status == Running && onDisk == Snapshot(planned, 0, Running)
    {
      chunks := planned;
      completedChunks := 0;
      status := Running;
      onDisk := Snapshot(planned, 0, Running);
      new;
      NothingComplete(planned);
    }

    method Checkpoint()
      modifies `onDisk
      ensures onDisk == Snapshot(chunks, completedChunks, status)
    {
      onDisk := Snapshot(chunks, completedChunks, status);
    }

    method UpdateChunkRecord(index: nat, status: ChunkStatus, audioHash: Option<string>, bytes: Option<nat>, error: Option<string>)
      returns (ok: bool)
      requires Valid()
      modifies `chunks, `completedChunks
      ensures Valid() && ok == (index < |old(chunks)|)
      ensures ok ==> chunks == old(chunks)[index := old(chunks)[index].(status := status, audioHash := audioHash, bytes := bytes, error := error)]
      ensures !ok ==> chunks == old(chunks)
    {
      if index >= |chunks| {
        return false;
      }
      var wasComplete, isComplete := IsComplete(chunks[index].status), IsComplete(status);
      var updated := chunks[index].(status := status, audioHash := audioHash, bytes := bytes, error := error);
      CountAfterUpdate(chunks, index, updated);
      chunks := chunks[index := updated];
      if !wasComplete && isComplete {
        completedChunks := completedChunks + 1;
      } else if wasComplete && !isComplete {
        completedChunks := completedChunks - 1;
      }
      return true;
    }

    method Record(index: nat, resolution: Resolution, hash: AudioHash)
      requires Valid() && index < |chunks|
      modifies `chunks, `completedChunks
      ensures Valid() && chunks == old(chunks)[index := Resolved(old(chunks)[index], resolution, hash)]
      ensures Says(chunks[index], old(chunks)[index], resolution, hash)
    {
      var ok;
      match resolution {
        case Reused(audio) => ok := UpdateChunkRecord(index, Cached, Some(hash(audio)), Some(|audio|), None);
        case Fresh(audio) => ok := UpdateChunkRecord(index, Synthesized, Some(hash(audio)), Some(|audio|), None);
        case Failure(error) => ok := UpdateChunkRecord(index, Failed, None, None, Some(error));
      }
    }

    /** Collect the outcomes in `order`. Whatever that order is, the final records, counters and sorted files are
        those of `byIndex`; only the order of the failure list and of the progress notes follows it. */
    method Collect(order: seq<Outcome>, ghost byIndex: seq<Outcome>, announced: nat, hash: AudioHash) returns (report: Tally)
      requires Valid() && onDisk == Snapshot(chunks, completedChunks, status)
      requires IsOutcomeOf(byIndex, chunks) && IsCompletionOrder(order, byIndex)
      modifies this
      ensures Valid() && onDisk == Snapshot(chunks, completedChunks, status)
      ensures RecordsAre(chunks, old(chunks), byIndex, All(|byIndex|), hash)
      ensures status == if Where(byIndex, All(|byIndex|), IsFailure()) == {} then Succeeded else RunFailed
      ensures Tallies(report, byIndex, All(|byIndex|), announced) && Sorting.Ascending(report.files)
    {
      report := NOTHING_YET;
      var sinceCheckpoint := 0;
      ghost var planned := chunks;
      ghost var unsaved: set<nat> := {};
      for k := 0 to |order|
        invariant Valid() && Saved(unsaved, sinceCheckpoint)
        invariant RecordsAre(chunks, planned, byIndex, Seen(order, k), hash)
        invariant Tallies(report, byIndex, Seen(order, k), announced)
      {
        report, sinceCheckpoint, unsaved :=
          CollectNext(order, byIndex, planned, k, announced, hash, report, sinceCheckpoint, unsaved);
      }
      SeenAll(order, byIndex);
      report := Finish(report, byIndex, announced);
    }

    /** Count and record the outcome at place `k` of the completion order. */
    method CollectNext(order: seq<Outcome>, ghost byIndex: seq<Outcome>, ghost planned: seq<ChunkRecord>, k: nat, announced: nat,
                       hash: AudioHash, tally: Tally, before: nat, ghost unsavedBefore: set<nat>)
      returns (report: Tally, sinceCheckpoint: nat, ghost unsaved: set<nat>)
      requires k < |order| && IsOutcomeOf(byIndex, planned) && IsCompletionOrder(order, byIndex)
      requires Valid() && Saved(unsavedBefore, before)
      requires RecordsAre(chunks, planned, byIndex, Seen(order, k), hash)
      requires Tallies(tally, byIndex, Seen(order, k), announced)
      modifies `chunks, `completedChunks, `onDisk
      ensures Valid() && Saved(unsaved, sinceCheckpoint)
      ensures RecordsAre(chunks, planned, byIndex, Seen(order, k + 1), hash)
      ensures Tallies(report, byIndex, Seen(order, k + 1), announced)
    {
      TallyOutcome(tally, order, byIndex, planned, k, announced);
      report := Counted(tally, order[k], announced);
      sinceCheckpoint, unsaved := RecordAndCheckpoint(order[k], hash, before, unsavedBefore);
    }

    /** Sort the files, settle the status and write the last checkpoint. */
    method Finish(tally: Tally, ghost byIndex: seq<Outcome>, ghost announced: nat) returns (report: Tally)
      requires Tallies(tally, byIndex, All(|byIndex|), announced)
      modifies `status, `onDisk
      ensures onDisk == Snapshot(chunks, completedChunks, status)
      ensures status == if Where(byIndex, All(|byIndex|), IsFailure()) == {} then Succeeded else RunFailed
      ensures Tallies(report, byIndex, All(|byIndex|), announced) && Sorting.Ascending(report.files)
    {
      var files := Sorting.Sort(tally.files);
      AscendingIsDistinct(files);
      report := tally.(files := files);
      status := if report.failures == [] then Succeeded else RunFailed;
      Checkpoint();
      assert report.failures != [] ==> report.failures[0] in (set i | i in report.failures);
    }

    /** Record one outcome; checkpoint at once after a failure, and after every sixteenth success. */
    method RecordAndCheckpoint(outcome: Outcome, hash: AudioHash, before: nat, ghost unsavedBefore: set<nat>)
      returns (sinceCheckpoint: nat, ghost unsaved: set<nat>)
      requires Valid() && outcome.index < |chunks| && Saved(unsavedBefore, before)
      modifies `chunks, `completedChunks, `onDisk
      ensures Valid() && Saved(unsaved, sinceCheckpoint)
      ensures chunks == old(chunks)[outcome.index := Resolved(old(chunks)[outcome.index], outcome.resolution, hash)]
      ensures outcome.resolution.Failure? ==> onDisk.chunks == chunks
    {
      Record(outcome.index, outcome.resolution, hash);
      sinceCheckpoint := before + 1;
      unsaved := unsavedBefore + {outcome.index};
      if outcome.resolution.Failure? || sinceCheckpoint >= MANIFEST_CHECKPOINT_INTERVAL {
        Checkpoint();
        sinceCheckpoint, unsaved := 0, {};
      }
    }

    /** The checkpoint on disk lacks at most the records in `unsaved`, fewer than the checkpoint interval. */
    ghost predicate Saved(unsaved: set<nat>, sinceCheckpoint: nat)
      reads this
    {
      && |unsaved| <= sinceCheckpoint < MANIFEST_CHECKPOINT_INTERVAL
      && |onDisk.chunks| == |chunks|
      && forall i | 0 <= i < |chunks| && i !in unsaved :: onDisk.chunks[i] == chunks[i]
    }
  }

  lemma {:induction false} NothingComplete(chunks: seq<ChunkRecord>)
    requires forall i | 0 <= i < |chunks| :: chunks[i].status == Pending
    ensures CountComplete(chunks) == 0
  {
    if chunks != [] {
      NothingComplete(chunks[..|chunks| - 1]);
    }
  }

  /** Synthesized, skipped and failed add up to the total. */
  lemma CountsAddUp(byIndex: seq<Outcome>)
    ensures |Where(byIndex, All(|byIndex|), IsFresh())| + |Where(byIndex, All(|byIndex|), IsReused())|
          + |Where(byIndex, All(|byIndex|), IsFailure())| == |byIndex|
  {
    var all := All(|byIndex|);
    var a, b, c := Where(byIndex, all, IsFresh()), Where(byIndex, all, IsReused()), Where(byIndex, all, IsFailure());
    assert all == a + b + c;
    assert |a + b| == |a| + |b|;
    assert |a + b + c| == |a + b| + |c|;
  }

  /** Two completion orders of the same outcomes: the same records and the same files, in the same places. */
  lemma OrderDoesNotMatter(planned: seq<ChunkRecord>, byIndex: seq<Outcome>, hash: AudioHash,
                           chunks1: seq<ChunkRecord>, files1: seq<string>, chunks2: seq<ChunkRecord>, files2: seq<string>)
    requires |byIndex| == |planned|
    requires RecordsAre(chunks1, planned, byIndex, All(|byIndex|), hash)
    requires RecordsAre(chunks2, planned, byIndex, All(|byIndex|), hash)
    requires Sorting.Ascending(files1) && Sorting.Ascending(files2)
    requires Sorting.Elements(files1) == Paths(byIndex, Where(byIndex, All(|byIndex|), IsSuccess())) == Sorting.Elements(files2)
    ensures chunks1 == chunks2 && files1 == files2
  {
    Sorting.AscendingIsUnique(files1, files2);
  }

  // ----- the announced progress total -----

  /** How many planned chunks a predicate selects: `filter(..).count()`. */
  function CountSelected(selected: seq<bool>): nat {
    if selected == [] then 0
    else CountSelected(selected[..|selected| - 1]) + (if selected[|selected| - 1] then 1 else 0)
  }

  /** The total announced for the progress of a build: everything, or what a failed-only retry selects. */
  function Announced(retryFailed: bool, selected: seq<bool>): nat {
    if retryFailed then CountSelected(selected) else |selected|
  }

  lemma {:induction false} SelectedCount(byIndex: seq<Outcome>, selected: seq<bool>, n: nat)
    requires n <= |selected| == |byIndex|
    requires forall i | 0 <= i < |byIndex| :: byIndex[i].reportProgress == selected[i]
    ensures |Where(byIndex, All(n), IsReported())| == CountSelected(selected[..n])
  {
    if n > 0 {
      SelectedCount(byIndex, selected, n - 1);
      SelectedOneMore(byIndex, selected, n - 1);
    } else {
      assert Where(byIndex, All(0), IsReported()) == {};
    }
  }

  lemma SelectedOneMore(byIndex: seq<Outcome>, selected: seq<bool>, n: nat)
    requires n < |selected| == |byIndex| && byIndex[n].reportProgress == selected[n]
    requires |Where(byIndex, All(n), IsReported())| == CountSelected(selected[..n])
    ensures |Where(byIndex, All(n + 1), IsReported())| == CountSelected(selected[..n + 1])
  {
    ReportedOneMore(byIndex, n);
    CountPrefix(selected, n);
  }

  lemma CountPrefix(selected: seq<bool>, n: nat)
    requires n < |selected|
    ensures CountSelected(selected[..n + 1]) == CountSelected(selected[..n]) + (if selected[n] then 1 else 0)
  {
    assert selected[..n + 1][..n] == selected[..n];
  }

  lemma ReportedOneMore(byIndex: seq<Outcome>, n: nat)
    requires n < |byIndex|
    ensures |Where(byIndex, All(n + 1), IsReported())| == |Where(byIndex, All(n), IsReported())| + (if byIndex[n].reportProgress then 1 else 0)
  {
    var before, after := Where(byIndex, All(n), IsReported()), Where(byIndex, All(n + 1), IsReported());
    assert n !in before;
    if byIndex[n].reportProgress {
      assert after == before + {n};
    } else {
      assert after == before;
    }
  }

  /** When a chunk reports progress exactly if the build is ordinary or the retry selects it, progress ends at the
      announced total. */
  lemma ProgressReachesTotal(byIndex: seq<Outcome>, retryFailed: bool, selected: seq<bool>)
    requires |selected| == |byIndex|
    requires forall i | 0 <= i < |byIndex| :: byIndex[i].reportProgress == (!retryFailed || selected[i])
    ensures |Where(byIndex, All(|byIndex|), IsReported())| == Announced(retryFailed, selected)
  {
    if retryFailed {
      SelectedCount(byIndex, selected, |byIndex|);
      assert selected[..|byIndex|] == selected;
    } else {
      assert Where(byIndex, All(|byIndex|), IsReported()) == All(|byIndex|);
    }
  }
}
