/** What a build that has run to its end has paid for and leaves behind
    (crates/bookforge-audio/src/builder.rs:574-645, 753-967). */
module BuildAccounts {
  import opened Options
  import opened Manifest
  import opened ResumableBuild
  import opened RetryHistory

  // ----- what it has paid for -----

  /** From step `i`, where an ordinary build begins, up to step `j` it goes on. */
  ghost predicate Underway(world: World, states: seq<State>, steps: seq<Step>, i: nat, j: nat) {
    && History(world, states, steps) && i < j <= |steps| && steps[i].Begin? && !steps[i].retryFailed
    && forall k | i < k < j :: !steps[k].Finish? && !steps[k].Stop?
  }

  /** The calls made since `before`. */
  function CallsSince(before: State, now: State): seq<Call> {
    if |before.calls| <= |now.calls| then now.calls[|before.calls|..] else []
  }

  ghost function PaidFor(calls: seq<Call>): set<string> {
    set k | 0 <= k < |calls| :: calls[k].file
  }

  /** The planned files that were missing at the start, of the chunks whose tasks have run. */
  ghost function Due(files: map<string, Audio>, plan: seq<Job>, stages: seq<Stage>): set<string> {
    set k | 0 <= k < |plan| && k < |stages| && !stages[k].Waiting? && plan[k].file !in files :: plan[k].file
  }

  /** Each file once, and none that was there. */
  ghost predicate PaidOnce(calls: seq<Call>) {
    && (forall a, b | 0 <= a < b < |calls| :: calls[a].file != calls[b].file)
    && forall k | 0 <= k < |calls| :: !calls[k].existed
  }

  ghost predicate Accounts(start: State, now: State, plan: seq<Job>) {
    && now.run.Building? && now.run.plan == plan && !now.run.retryFailed && |now.run.stages| == |plan| && DistinctFiles(plan)
    && start.calls <= now.calls && PaidOnce(CallsSince(start, now))
    && PaidFor(CallsSince(start, now)) == Due(start.disk.files, plan, now.run.stages)
    && forall k | 0 <= k < |plan| && now.run.stages[k].Waiting? :: plan[k].file in now.disk.files <==> plan[k].file in start.disk.files
  }

  lemma StageSettled(files: map<string, Audio>, plan: seq<Job>, stages: seq<Stage>, index: nat, stage: Stage)
    requires index < |plan| == |stages| && !stage.Waiting?
    ensures Due(files, plan, stages[index := stage])
         == Due(files, plan, stages) + if plan[index].file in files then {} else {plan[index].file}
  {
    var after := stages[index := stage];
    forall f | f in Due(files, plan, stages) ensures f in Due(files, plan, after) {
      var k :| 0 <= k < |plan| && !stages[k].Waiting? && plan[k].file !in files && plan[k].file == f;
      assert !after[k].Waiting?;
    }
    forall f | f in Due(files, plan, after) ensures f in Due(files, plan, stages) || (f == plan[index].file && f !in files) {
      var k :| 0 <= k < |plan| && !after[k].Waiting? && plan[k].file !in files && plan[k].file == f;
      assert k != index ==> !stages[k].Waiting?;
    }
    assert !after[index].Waiting?;
  }

  lemma CallAdded(calls: seq<Call>, file: string)
    requires PaidOnce(calls) && file !in PaidFor(calls)
    ensures PaidOnce(calls + [Call(file, false)]) && PaidFor(calls + [Call(file, false)]) == PaidFor(calls) + {file}
  {
    var more := calls + [Call(file, false)];
    forall f | f in PaidFor(calls) ensures f in PaidFor(more) {
      var k :| 0 <= k < |calls| && calls[k].file == f;
      assert more[k].file == f;
    }
    assert more[|calls|].file == file;
    forall a | 0 <= a < |calls| ensures calls[a].file != file {
      assert calls[a].file in PaidFor(calls);
    }
  }

  lemma NotDueYet(files: map<string, Audio>, plan: seq<Job>, stages: seq<Stage>, index: nat)
    requires DistinctFiles(plan) && index < |plan| == |stages| && stages[index].Waiting?
    ensures plan[index].file !in Due(files, plan, stages)
  {
  }

  lemma ResolveKeepsAccounts(world: World, start: State, s: State, plan: seq<Job>, index: nat, provided: Option<Audio>)
    requires Inv(world, s) && Enabled(world, s, Resolve(index, provided)) && Accounts(start, s, plan)
    ensures Accounts(start, After(world, s, Resolve(index, provided)), plan)
  {
    var t, file := After(world, s, Resolve(index, provided)), plan[index].file;
    var calls := CallsSince(start, s);
    OrdinaryBuildPaysOnlyForMissing(world, s, index, provided);
    StageSettled(start.disk.files, plan, s.run.stages, index, t.run.stages[index]);
    NotDueYet(start.disk.files, plan, s.run.stages, index);
    if file !in s.disk.files {
      CallAdded(calls, file);
      assert CallsSince(start, t) == calls + [Call(file, false)];
    }
    forall k | 0 <= k < |plan| && t.run.stages[k].Waiting? ensures plan[k].file in t.disk.files <==> plan[k].file in start.disk.files {
      assert k != index && plan[k].file != file;
    }
  }

  lemma EnterKeepsAccounts(world: World, start: State, s: State, plan: seq<Job>, index: nat)
    requires Enabled(world, s, Enter(index)) && Accounts(start, s, plan)
    ensures Accounts(start, After(world, s, Enter(index)), plan)
  {
    var t := After(world, s, Enter(index));
    StageSettled(start.disk.files, plan, s.run.stages, index, Recorded);
    assert plan[index].file !in start.disk.files ==> plan[index].file in Due(start.disk.files, plan, s.run.stages);
    assert CallsSince(start, t) == CallsSince(start, s);
  }

  lemma StepKeepsAccounts(world: World, start: State, s: State, plan: seq<Job>, step: Step)
    requires Inv(world, s) && Enabled(world, s, step) && Accounts(start, s, plan) && !step.Finish? && !step.Stop?
    ensures Accounts(start, After(world, s, step), plan)
  {
    match step
    case Resolve(index, provided) => ResolveKeepsAccounts(world, start, s, plan, index, provided);
    case Enter(index) => EnterKeepsAccounts(world, start, s, plan, index);
    case _ =>
  }

  lemma BeginAccounts(world: World, s: State, plan: seq<Job>)
    requires Enabled(world, s, Begin(plan, false))
    ensures Accounts(s, After(world, s, Begin(plan, false)), plan)
  {
    var t := After(world, s, Begin(plan, false));
    assert CallsSince(s, t) == [];
  }

  lemma {:induction false} BuildAccountsSoFar(world: World, states: seq<State>, steps: seq<Step>, i: nat, j: nat)
    requires Underway(world, states, steps, i, j)
    ensures Accounts(states[i], states[j], steps[i].plan)
    decreases j
  {
    assert Follows(world, states, steps, j - 1);
    if j == i + 1 {
      BeginAccounts(world, states[i], steps[i].plan);
    } else {
      BuildAccountsSoFar(world, states, steps, i, j - 1);
      HistoryKeepsInv(world, states, steps);
      StepKeepsAccounts(world, states[i], states[j - 1], steps[i].plan, steps[j - 1]);
    }
  }

  /** An ordinary build that runs to its end has called the provider exactly once for each planned chunk whose file was
      missing when it began, and for nothing else. */
  lemma FinishedBuildPaysOnce(world: World, states: seq<State>, steps: seq<Step>, i: nat, j: nat)
    requires Underway(world, states, steps, i, j) && j < |steps| && steps[j].Finish?
    ensures states[i].calls <= states[j + 1].calls
    ensures var calls := CallsSince(states[i], states[j + 1]);
      && PaidOnce(calls)
      && forall file ::
           file in PaidFor(calls) <==> file !in states[i].disk.files && exists k :: 0 <= k < |steps[i].plan| && steps[i].plan[k].file == file
  {
    var plan := steps[i].plan;
    BuildAccountsSoFar(world, states, steps, i, j);
    assert Follows(world, states, steps, j);
    var calls := CallsSince(states[i], states[j + 1]);
    assert calls == CallsSince(states[i], states[j]);
    forall file ensures file in PaidFor(calls) <==> file !in states[i].disk.files && exists k :: 0 <= k < |plan| && plan[k].file == file {
    }
  }

  // ----- what it leaves -----

  /** What has been entered is settled, under the plan's names and hashes. */
  ghost predicate EnteredAreSettled(s: State) {
    s.run.Building? ==>
      && |s.run.stages| == |s.run.plan| == |s.run.records|
      && forall k | 0 <= k < |s.run.plan| ::
           && s.run.records[k].file == s.run.plan[k].file && s.run.records[k].synthesis == s.run.plan[k].synthesis
           && (s.run.stages[k].Recorded? ==> s.run.records[k].status != Pending)
  }

  lemma StepKeepsSettled(world: World, s: State, step: Step)
    requires Enabled(world, s, step) && EnteredAreSettled(s)
    ensures EnteredAreSettled(After(world, s, step))
  {
    if step.Enter? {
      EnterSettles(world, s, step.index);
    }
  }

  lemma EnterSettles(world: World, s: State, index: nat)
    requires Enabled(world, s, Enter(index)) && EnteredAreSettled(s)
    ensures EnteredAreSettled(After(world, s, Enter(index)))
  {
  }

  lemma {:induction false} HistoryKeepsSettled(world: World, states: seq<State>, steps: seq<Step>, i: nat)
    requires History(world, states, steps) && i < |states|
    ensures EnteredAreSettled(states[i])
  {
    if i > 0 {
      HistoryKeepsSettled(world, states, steps, i - 1);
      assert Follows(world, states, steps, i - 1);
      StepKeepsSettled(world, states[i - 1], steps[i - 1]);
    }
  }

  /** The record of a chunk when the build has ended: complete exactly if its audio is on disk, and then with the hash and
      size of that audio; failed otherwise. */
  ghost predicate IsFinal(world: World, files: map<string, Audio>, job: Job, record: ChunkRecord) {
    && record.file == job.file && record.synthesis == job.synthesis
    && (IsComplete(record.status) <==> job.file in files) && (record.status == Failed <==> job.file !in files)
    && (job.file in files ==> record.audioHash == Some(world.hash(files[job.file])) && record.bytes == Some(|files[job.file]|))
  }

  /** An ordinary build that runs to its end leaves a manifest that accounts for every planned chunk. */
  lemma FinishedBuildAccounts(world: World, states: seq<State>, steps: seq<Step>, i: nat)
    requires History(world, states, steps) && i < |steps| && steps[i].Finish? && RetriesInARow(steps, i) == 0
    ensures states[i].run.Building? && states[i + 1].disk.manifest.Some?
    ensures var plan, records := states[i].run.plan, states[i + 1].disk.manifest.value;
      |records| == |plan| && forall k | 0 <= k < |plan| :: IsFinal(world, states[i + 1].disk.files, plan[k], records[k])
  {
    HistoryKeepsInv(world, states, steps);
    HistoryKeepsSettled(world, states, steps, i);
    HistoryKeepsLineage(world, states, steps, i);
    assert Follows(world, states, steps, i);
    var s := states[i];
    forall k | 0 <= k < |s.run.plan| ensures IsFinal(world, s.disk.files, s.run.plan[k], s.run.records[k]) {
      assert Matches(world, s.disk.files, s.run.records[k]);
      assert s.run.stages[k].Recorded?;
    }
  }
}
