/** Runs of the launch claim that go wrong, each by one act that comes too late or takes a claim back
    (crates/bookforge-cli/src/control.rs:443-475, 610-623, 789-831, 864-922; crates/bookforge-cli/src/commands/retry.rs:291-345). */
module LaunchRaces {
  import opened LaunchClaim
  import opened LaunchSafety
  import opened LaunchPrompt

  /** A run whose one lapse is the step `late`. */
  datatype Race = Race(start: State, mid: State, late: Step, end: State)

  ghost predicate Races(race: Race, staleAfterMs: nat) {
    && Init(race.start) && Reaches(race.start, race.mid, staleAfterMs)
    && Enabled(race.mid, race.late, staleAfterMs) && !Timely(race.mid, race.late)
    && Reaches(After(race.mid, race.late, staleAfterMs), race.end, staleAfterMs)
  }

  /** Two live processes hold the claim in the end. */
  ghost predicate BreaksExclusion(race: Race, staleAfterMs: nat) {
    Races(race, staleAfterMs) && !Exclusive(race.end)
  }

  // ----- a race is a run -----

  ghost predicate DisciplinedAt(states: seq<State>, steps: seq<Step>, i: nat)
    requires i < |steps| && |states| == |steps| + 1
  {
    Disciplined(states[i], steps[i])
  }

  ghost predicate CarefulAt(states: seq<State>, steps: seq<Step>, i: nat, staleAfterMs: nat)
    requires i < |steps| && |states| == |steps| + 1
  {
    Follows(states, steps, i, staleAfterMs) && DisciplinedAt(states, steps, i)
  }

  lemma {:induction false} StatesOf(s: State, steps: seq<Step>, end: State, staleAfterMs: nat) returns (states: seq<State>)
    requires Leads(s, steps, end, staleAfterMs)
    ensures |states| == |steps| + 1 && states[0] == s && states[|steps|] == end
    ensures forall i | 0 <= i < |steps| :: CarefulAt(states, steps, i, staleAfterMs)
    decreases |steps|
  {
    if steps == [] {
      states := [s];
    } else {
      var rest := StatesOf(After(s, steps[0], staleAfterMs), steps[1..], end, staleAfterMs);
      states := [s] + rest;
      forall i | 0 <= i < |steps| ensures CarefulAt(states, steps, i, staleAfterMs) {
        if i > 0 {
          assert CarefulAt(rest, steps[1..], i - 1, staleAfterMs);
        }
      }
    }
  }

  lemma LateIsUndisciplined(race: Race, staleAfterMs: nat)
    requires Races(race, staleAfterMs)
    ensures !Disciplined(race.mid, race.late)
  {
    ReachesKeepsInv(race.start, race.mid, staleAfterMs);
    if Disciplined(race.mid, race.late) {
      DisciplineIsTimely(race.mid, race.late, staleAfterMs);
    }
  }

  /** The race is a run of the launch claim, disciplined at every step but one. */
  lemma RaceIsARun(race: Race, staleAfterMs: nat) returns (states: seq<State>, steps: seq<Step>, lapse: nat)
    requires Races(race, staleAfterMs)
    ensures Runs(states, steps, staleAfterMs) && states[|steps|] == race.end
    ensures lapse < |steps| && steps[lapse] == race.late
    ensures forall i | 0 <= i < |steps| :: DisciplinedAt(states, steps, i) <==> i != lapse
  {
    LateIsUndisciplined(race, staleAfterMs);
    var next := After(race.mid, race.late, staleAfterMs);
    var before :| Leads(race.start, before, race.mid, staleAfterMs);
    var after :| Leads(next, after, race.end, staleAfterMs);
    var first := StatesOf(race.start, before, race.mid, staleAfterMs);
    var second := StatesOf(next, after, race.end, staleAfterMs);
    states, steps, lapse := first + second, before + [race.late] + after, |before|;
    forall i | 0 <= i < |steps|
      ensures Follows(states, steps, i, staleAfterMs)
      ensures DisciplinedAt(states, steps, i) <==> i != lapse
    {
      if i < lapse {
        assert CarefulAt(first, before, i, staleAfterMs);
      } else if i > lapse {
        var j := i - lapse - 1;
        assert CarefulAt(second, after, j, staleAfterMs);
        assert states[i] == second[j] && steps[i] == after[j] && states[i + 1] == second[j + 1];
      }
    }
  }

  // ----- reclaim -----

  function NoProcess(): State {
    State(Absent, map[], map[], 0, {}, {}, {}, {})
  }

  /** The claim that the dead process 9 left. */
  function LeftBehind(): State {
    NoProcess().(file := Carries(Document(0, 9, 0)), born := {9}, used := {0})
  }

  function BothStarted(now: nat): State {
    State(Carries(Document(0, 9, 0)), map[1 := Idle, 2 := Idle], map[], now, {1, 2, 9}, {0}, {}, {})
  }

  /** Processes 1 and 2 have both judged it. */
  function JudgedTwice(now: nat): State {
    State(Carries(Document(0, 9, 0)), map[1 := Judging, 2 := Judging], map[], now, {1, 2, 9}, {0}, {}, {})
  }

  lemma JudgeTwice(staleAfterMs: nat)
    ensures Reaches(LeftBehind(), JudgedTwice(staleAfterMs), staleAfterMs)
  {
    var s := LeftBehind();
    Stay(s, staleAfterMs);
    var t := Then(s, s, Tick(staleAfterMs), staleAfterMs);
    t := Then(s, t, Start(1), staleAfterMs);
    t := Then(s, t, Start(2), staleAfterMs);
    assert t == BothStarted(staleAfterMs);
    t := Then(s, t, Read(1), staleAfterMs);
    t := Then(s, t, Read(2), staleAfterMs);
    assert t == BothStarted(staleAfterMs).(procs := map[1 := Reading(Document(0, 9, 0)), 2 := Reading(Document(0, 9, 0))]);
    t := Then(s, t, Judge(1, Gone), staleAfterMs);
    t := Then(s, t, Judge(2, Gone), staleAfterMs);
    assert t == JudgedTwice(staleAfterMs);
  }

  /** Process 1 has reclaimed the dead claim and installed its own, and 2 is still about to rename the dead one away. */
  function FirstWins(now: nat, beat: Heartbeat): State {
    State(Carries(Document(1, 1, now)), map[1 := Holding(1, beat), 2 := Judging], map[], now, {1, 2, 9}, {0, 1}, {}, {})
  }

  lemma FirstReclaims(staleAfterMs: nat)
    ensures Reaches(LeftBehind(), FirstWins(staleAfterMs, Resting), staleAfterMs)
  {
    JudgeTwice(staleAfterMs);
    var t := Then(LeftBehind(), JudgedTwice(staleAfterMs), Reclaim(1), staleAfterMs);
    t := Then(LeftBehind(), t, Install(1, 1), staleAfterMs);
    assert t == FirstWins(staleAfterMs, Resting);
  }

  /** Two reclaimers judge the same dead claim; the slower one renames away the claim the faster one has since installed. */
  lemma ReclaimRace(staleAfterMs: nat)
    ensures exists race :: BreaksExclusion(race, staleAfterMs) && race.late == Reclaim(2)
  {
    FirstReclaims(staleAfterMs);
    var mid := FirstWins(staleAfterMs, Resting);
    assert IsHolder(mid, 1);
    var t := After(mid, Reclaim(2), staleAfterMs);
    Stay(t, staleAfterMs);
    var end := Then(t, t, Install(2, 2), staleAfterMs);
    assert IsHolder(end, 1) && IsHolder(end, 2);
    assert BreaksExclusion(Race(LeftBehind(), mid, Reclaim(2), end), staleAfterMs);
  }

  /** The same late rename between a heartbeat's verifying and its publishing: the heartbeat overwrites the claim of the
      process that has installed its own in between. */
  lemma HeartbeatRace(staleAfterMs: nat)
    ensures exists race ::
      && Races(race, staleAfterMs) && race.late == Reclaim(2)
      && IsHolder(race.end, 2) && race.end.file.Carries? && race.end.file.doc.pid == 1
  {
    FirstReclaims(staleAfterMs);
    var mid := Then(LeftBehind(), FirstWins(staleAfterMs, Resting), BeatVerify(1), staleAfterMs);
    assert mid == FirstWins(staleAfterMs, Verified);
    assert IsHolder(mid, 1);
    var t := After(mid, Reclaim(2), staleAfterMs);
    Stay(t, staleAfterMs);
    var end := Then(t, t, Install(2, 2), staleAfterMs);
    end := Then(t, end, BeatPublish(1), staleAfterMs);
    assert IsHolder(end, 2);
    assert Races(Race(LeftBehind(), mid, Reclaim(2), end), staleAfterMs);
  }

  // ----- adoption -----

  /** Process 1 holds a claim. */
  function OneHolds(): State {
    State(Carries(Document(1, 1, 0)), map[1 := Holding(1, Resting)], map[], 0, {1}, {1}, {}, {})
  }

  lemma OneInstalls(staleAfterMs: nat)
    ensures Reaches(NoProcess(), OneHolds(), staleAfterMs)
  {
    var s := NoProcess();
    Stay(s, staleAfterMs);
    var t := Then(s, s, Start(1), staleAfterMs);
    t := Then(s, t, Install(1, 1), staleAfterMs);
    assert t == OneHolds();
  }

  /** Process 1 has handed its claim to its child 2, which has verified it. */
  function ChildVerified(): State {
    State(Carries(Document(1, 1, 0)), map[1 := HandedOff(1), 2 := Adopting(1, 1)], map[], 0, {1, 2}, {1}, {Offer(1, 1)}, {})
  }

  lemma GiveToChild(staleAfterMs: nat)
    ensures Reaches(NoProcess(), ChildVerified(), staleAfterMs)
  {
    var s := NoProcess();
    OneInstalls(staleAfterMs);
    var t := Then(s, OneHolds(), Handoff(1), staleAfterMs);
    t := Then(s, t, SpawnChild(1, 2), staleAfterMs);
    t := Then(s, t, AdoptVerify(2), staleAfterMs);
    assert t == ChildVerified();
  }

  /** The parent has died since, and process 3 has judged its claim. */
  function Orphaned(now: nat): State {
    State(Carries(Document(1, 1, 0)), map[2 := Adopting(1, 1), 3 := Judging], map[], now, {1, 2, 3}, {1}, {Offer(1, 1)}, {})
  }

  lemma ParentDies(staleAfterMs: nat)
    ensures Reaches(NoProcess(), Orphaned(staleAfterMs), staleAfterMs)
  {
    var s := NoProcess();
    GiveToChild(staleAfterMs);
    var t := Then(s, ChildVerified(), Die(1), staleAfterMs);
    t := Then(s, t, Tick(staleAfterMs), staleAfterMs);
    t := Then(s, t, Start(3), staleAfterMs);
    t := Then(s, t, Read(3), staleAfterMs);
    t := Then(s, t, Judge(3, Gone), staleAfterMs);
    assert t == Orphaned(staleAfterMs);
  }

  /** A child verifies its claim, its parent dies, the claim is reclaimed and installed anew, and the child publishes. */
  lemma AdoptionRace(staleAfterMs: nat)
    ensures exists race :: BreaksExclusion(race, staleAfterMs) && race.late == AdoptPublish(2)
  {
    var s := NoProcess();
    ParentDies(staleAfterMs);
    var mid := Then(s, Orphaned(staleAfterMs), Reclaim(3), staleAfterMs);
    mid := Then(s, mid, Install(3, 2), staleAfterMs);
    assert IsHolder(mid, 3);
    var end := After(mid, AdoptPublish(2), staleAfterMs);
    Stay(end, staleAfterMs);
    assert IsHolder(end, 2) && IsHolder(end, 3);
    assert BreaksExclusion(Race(s, mid, AdoptPublish(2), end), staleAfterMs);
  }

  // ----- removal -----

  /** Process 1 has cleared its claim but not yet dropped it, and process 3 has installed one. */
  function ThirdInstalled(): State {
    State(Carries(Document(2, 3, 0)), map[1 := Cleared(1), 3 := Holding(2, Resting)], map[], 0, {1, 3}, {1, 2}, {}, {})
  }

  lemma ThirdInstalls(staleAfterMs: nat)
    ensures Reaches(NoProcess(), ThirdInstalled(), staleAfterMs)
  {
    var s := NoProcess();
    OneInstalls(staleAfterMs);
    var t := Then(s, OneHolds(), Park(1), staleAfterMs);
    t := Then(s, t, Settle(1), staleAfterMs);
    t := Then(s, t, Start(3), staleAfterMs);
    t := Then(s, t, Install(3, 2), staleAfterMs);
    assert t == ThirdInstalled();
  }

  /** A claim that was cleared and is dropped later removes once more: while the third's claim is parked a fourth process
      installs, and putting the parked claim back overwrites the fourth's. */
  lemma LateRemovalRace(staleAfterMs: nat)
    ensures exists race ::
      && BreaksExclusion(race, staleAfterMs) && race.late == Park(1)
      && race.end.file.Carries? && race.end.file.doc.pid == 3 && IsHolder(race.end, 4)
  {
    ThirdInstalls(staleAfterMs);
    assert IsHolder(ThirdInstalled(), 3);
    var t := After(ThirdInstalled(), Park(1), staleAfterMs);
    Stay(t, staleAfterMs);
    var end := Then(t, t, Start(4), staleAfterMs);
    end := Then(t, end, Install(4, 3), staleAfterMs);
    end := Then(t, end, Settle(1), staleAfterMs);
    assert IsHolder(end, 3) && IsHolder(end, 4);
    assert BreaksExclusion(Race(NoProcess(), ThirdInstalled(), Park(1), end), staleAfterMs);
  }

  /** The child 2 has adopted and cleared the claim that 1 handed off and exited, and 3 has installed one and died: nobody
      holds one. */
  function ThirdDied(): State {
    State(Carries(Document(2, 3, 0)), map[1 := HandedOff(1)], map[],
          0, {1, 2, 3}, {1, 2}, {Offer(1, 1)}, {Offer(1, 1)})
  }

  /** The child holds the claim it was given. */
  function ChildHolds(): State {
    State(Carries(Document(1, 2, 0)), map[1 := HandedOff(1), 2 := Holding(1, Resting)], map[],
          0, {1, 2}, {1}, {Offer(1, 1)}, {Offer(1, 1)})
  }

  lemma ChildAdopts(staleAfterMs: nat)
    ensures Reaches(NoProcess(), ChildHolds(), staleAfterMs)
  {
    GiveToChild(staleAfterMs);
    var t := Then(NoProcess(), ChildVerified(), AdoptPublish(2), staleAfterMs);
    assert t == ChildHolds();
  }

  function ChildExited(): State {
    State(Absent, map[1 := HandedOff(1)], map[], 0, {1, 2}, {1}, {Offer(1, 1)}, {Offer(1, 1)})
  }

  lemma ThirdDies(staleAfterMs: nat)
    ensures Reaches(NoProcess(), ThirdDied(), staleAfterMs)
  {
    var s := NoProcess();
    ChildAdopts(staleAfterMs);
    var t := Then(s, ChildHolds(), Park(2), staleAfterMs);
    t := Then(s, t, Settle(2), staleAfterMs);
    t := Then(s, t, Die(2), staleAfterMs);
    assert t == ChildExited();
    t := Then(s, t, Start(3), staleAfterMs);
    t := Then(s, t, Install(3, 2), staleAfterMs);
    t := Then(s, t, Die(3), staleAfterMs);
    assert t == ThirdDied();
  }

  /** The parent has moved the dead claim aside and put it back over the claim that 4 has installed in between. */
  function DeadClaimBack(): State {
    State(Carries(Document(2, 3, 0)), map[1 := Cleared(1), 4 := Holding(3, Resting)], map[],
          0, {1, 2, 3, 4}, {1, 2, 3}, {Offer(1, 1)}, {Offer(1, 1)})
  }

  lemma DeadClaimReturns(staleAfterMs: nat)
    ensures Enabled(ThirdDied(), Park(1), staleAfterMs)
    ensures Reaches(After(ThirdDied(), Park(1), staleAfterMs), DeadClaimBack(), staleAfterMs)
  {
    var s := After(ThirdDied(), Park(1), staleAfterMs);
    assert s.procs[1] == Removing(1, Carries(Document(2, 3, 0)));
    Stay(s, staleAfterMs);
    var t := Then(s, s, Start(4), staleAfterMs);
    t := Then(s, t, Install(4, 3), staleAfterMs);
    t := Then(s, t, Settle(1), staleAfterMs);
    assert t == DeadClaimBack();
  }

  /** With no holder at all, and its child gone: a handed-off parent moves the dead foreign claim aside, a fourth process installs, the dead
      claim comes back over the live one, and a fifth reclaims it. */
  lemma ParkedClaimRace(staleAfterMs: nat)
    ensures exists race ::
      BreaksExclusion(race, staleAfterMs) && race.late == Park(1) && forall q :: !IsHolder(race.mid, q)
  {
    ThirdDies(staleAfterMs);
    DeadClaimReturns(staleAfterMs);
    assert IsHolder(DeadClaimBack(), 4);
    var end := TakesOver(After(ThirdDied(), Park(1), staleAfterMs), DeadClaimBack(), 4, staleAfterMs);
    assert BreaksExclusion(Race(NoProcess(), ThirdDied(), Park(1), end), staleAfterMs);
  }

  // ----- with every pair one act -----

  /** Process 1 has taken back the claim that its live child 2 had adopted. */
  function TakenBack(): State {
    State(Absent, map[1 := Cleared(1), 2 := Holding(1, Resting)], map[], 0, {1, 2}, {1}, {Offer(1, 1)}, {Offer(1, 1)})
  }

  /** A prompt run from no process at all leads to `end`, the last step being `last`. */
  ghost predicate RunsPromptlyTo(last: Step, end: State, staleAfterMs: nat) {
    exists states, steps | Runs(states, steps, staleAfterMs) && Prompt(states, steps) ::
      steps != [] && steps[|steps| - 1] == last && states[|steps|] == end && states[0] == NoProcess()
  }

  lemma Next(last: Step, mid: State, step: Step, staleAfterMs: nat) returns (end: State)
    requires RunsPromptlyTo(last, mid, staleAfterMs)
    requires Enabled(mid, step, staleAfterMs) && AtOnce(last, mid, step)
    ensures end == After(mid, step, staleAfterMs) && RunsPromptlyTo(step, end, staleAfterMs)
  {
    var states, steps :| Runs(states, steps, staleAfterMs) && Prompt(states, steps)
      && steps != [] && steps[|steps| - 1] == last && states[|steps|] == mid && states[0] == NoProcess();
    end := Append(states, steps, step, staleAfterMs);
    var states', steps' := states + [end], steps + [step];
    assert Runs(states', steps', staleAfterMs) && steps'[|steps'| - 1] == step && states'[0] == NoProcess();
  }

  lemma OneInstallsPromptly(staleAfterMs: nat)
    ensures RunsPromptlyTo(Install(1, 1), OneHolds(), staleAfterMs)
  {
    var started := NoProcess().(procs := map[1 := Idle], born := {1});
    var states, steps := [NoProcess(), started], [Start(1)];
    assert Follows(states, steps, 0, staleAfterMs);
    assert Runs(states, steps, staleAfterMs) && Prompt(states, steps);
    var t := Next(Start(1), started, Install(1, 1), staleAfterMs);
    assert t == OneHolds();
  }

  lemma ChildAdoptsPromptly(staleAfterMs: nat)
    ensures RunsPromptlyTo(AdoptPublish(2), ChildHolds(), staleAfterMs)
  {
    OneInstallsPromptly(staleAfterMs);
    var t := Next(Install(1, 1), OneHolds(), Handoff(1), staleAfterMs);
    t := Next(Handoff(1), t, SpawnChild(1, 2), staleAfterMs);
    t := Next(SpawnChild(1, 2), t, AdoptVerify(2), staleAfterMs);
    t := Next(AdoptVerify(2), t, AdoptPublish(2), staleAfterMs);
    assert t == ChildHolds();
  }

  lemma ParentTakesBack(staleAfterMs: nat)
    ensures RunsPromptlyTo(Settle(1), TakenBack(), staleAfterMs)
  {
    ChildAdoptsPromptly(staleAfterMs);
    var t := Next(AdoptPublish(2), ChildHolds(), Park(1), staleAfterMs);
    t := Next(Park(1), t, Settle(1), staleAfterMs);
    assert t == TakenBack();
  }

  /** Every read directly followed by its act, and still two holders: a parent that does not wait for its child clears the
      claim that the child adopted, and a third process installs its own. No caller does so. */
  lemma TakenBackRun(staleAfterMs: nat)
    ensures exists end ::
      RunsPromptlyTo(Install(3, 2), end, staleAfterMs) && IsHolder(end, 2) && IsHolder(end, 3)
  {
    ParentTakesBack(staleAfterMs);
    var t := Next(Settle(1), TakenBack(), Start(3), staleAfterMs);
    var end := Next(Start(3), t, Install(3, 2), staleAfterMs);
    assert IsHolder(end, 2) && IsHolder(end, 3);
  }

  // ----- two children -----

  /** Two children have verified the claim they were given, and the first has published itself as its owner and died. */
  function FirstChildDied(): State {
    State(Carries(Document(1, 2, 0)), map[1 := HandedOff(1), 3 := Adopting(1, 1)], map[],
          0, {1, 2, 3}, {1}, {Offer(1, 1)}, {Offer(1, 1)})
  }

  lemma FirstChildDies(staleAfterMs: nat)
    ensures Reaches(NoProcess(), FirstChildDied(), staleAfterMs)
  {
    var s := NoProcess();
    GiveToChild(staleAfterMs);
    var t := Then(s, ChildVerified(), SpawnChild(1, 3), staleAfterMs);
    t := Then(s, t, AdoptVerify(3), staleAfterMs);
    t := Then(s, t, AdoptPublish(2), staleAfterMs);
    t := Then(s, t, Die(2), staleAfterMs);
    assert t == FirstChildDied();
  }

  /** A handoff can be adopted a second time, timely but from a file that no longer shows it. */
  lemma AdoptedTwice(staleAfterMs: nat)
    ensures exists s | Reaches(NoProcess(), s, staleAfterMs) ::
      && Offer(1, 1) in s.adopted && Adopts(s, AdoptPublish(3), Offer(1, 1))
      && Timely(s, AdoptPublish(3)) && !FileShows(s, Offer(1, 1))
  {
    FirstChildDies(staleAfterMs);
  }
}
