/** Exactly when the launch claim is safe: every run, every act, every continuation
    (crates/bookforge-cli/src/control.rs:443-475, 569-623, 715-897). */
module LaunchSafety {
  import opened LaunchClaim

  // ----- careful continuations -----

  /** Disciplined steps lead from `s` to `end`. */
  ghost predicate Leads(s: State, steps: seq<Step>, end: State, staleAfterMs: nat)
    decreases |steps|
  {
    if steps == [] then end == s
    else
      && Enabled(s, steps[0], staleAfterMs) && Disciplined(s, steps[0])
      && Leads(After(s, steps[0], staleAfterMs), steps[1..], end, staleAfterMs)
  }

  lemma {:induction false} LeadsOn(s: State, steps: seq<Step>, mid: State, step: Step, staleAfterMs: nat)
    requires Leads(s, steps, mid, staleAfterMs) && Enabled(mid, step, staleAfterMs) && Disciplined(mid, step)
    ensures Leads(s, steps + [step], After(mid, step, staleAfterMs), staleAfterMs)
    decreases |steps|
  {
    if steps == [] {
      assert steps + [step] == [step] && [step][1..] == [];
    } else {
      assert (steps + [step])[1..] == steps[1..] + [step];
      LeadsOn(After(s, steps[0], staleAfterMs), steps[1..], mid, step, staleAfterMs);
    }
  }

  /** Some disciplined steps lead from `s` to `end`. */
  ghost predicate Reaches(s: State, end: State, staleAfterMs: nat) {
    exists steps :: Leads(s, steps, end, staleAfterMs)
  }

  lemma Stay(s: State, staleAfterMs: nat)
    ensures Reaches(s, s, staleAfterMs)
  {
    assert Leads(s, [], s, staleAfterMs);
  }

  lemma Then(s: State, mid: State, step: Step, staleAfterMs: nat) returns (end: State)
    requires Reaches(s, mid, staleAfterMs) && Enabled(mid, step, staleAfterMs) && Disciplined(mid, step)
    ensures end == After(mid, step, staleAfterMs) && Reaches(s, end, staleAfterMs)
  {
    var steps :| Leads(s, steps, mid, staleAfterMs);
    LeadsOn(s, steps, mid, step, staleAfterMs);
    end := After(mid, step, staleAfterMs);
  }

  lemma {:induction false} LeadsKeepsInv(s: State, steps: seq<Step>, end: State, staleAfterMs: nat)
    requires Inv(s) && Leads(s, steps, end, staleAfterMs)
    ensures Inv(end)
    decreases |steps|
  {
    if steps != [] {
      DisciplineIsTimely(s, steps[0], staleAfterMs);
      StepKeepsInv(s, steps[0], staleAfterMs);
      LeadsKeepsInv(After(s, steps[0], staleAfterMs), steps[1..], end, staleAfterMs);
    }
  }

  lemma ReachesKeepsInv(s: State, end: State, staleAfterMs: nat)
    requires Inv(s) && Reaches(s, end, staleAfterMs)
    ensures Inv(end)
  {
    var steps :| Leads(s, steps, end, staleAfterMs);
    LeadsKeepsInv(s, steps, end, staleAfterMs);
  }

  // ----- when an act is safe -----

  /** However careful everybody is from here on, and whoever joins, at most one live process ever holds the claim. */
  ghost predicate Safe(s: State, staleAfterMs: nat) {
    forall end | Reaches(s, end, staleAfterMs) :: Exclusive(end)
  }

  lemma InvIsSafe(s: State, staleAfterMs: nat)
    requires Inv(s)
    ensures Safe(s, staleAfterMs)
  {
    forall end | Reaches(s, end, staleAfterMs) ensures Exclusive(end) {
      ReachesKeepsInv(s, end, staleAfterMs);
    }
  }

  lemma {:induction false} Above(taken: set<nat>) returns (bound: nat)
    ensures forall n | n in taken :: n < bound
    decreases |taken|
  {
    if taken == {} {
      bound := 0;
    } else {
      var n :| n in taken;
      var above := Above(taken - {n});
      bound := if n < above then above else n + 1;
      assert forall k | k in taken :: k == n || k in taken - {n};
    }
  }

  /** A process that was never there before starts. */
  lemma Arrives(s: State, mid: State, not: Pid, staleAfterMs: nat) returns (r: Pid, end: State)
    requires Reaches(s, mid, staleAfterMs) && Known(mid)
    ensures Reaches(s, end, staleAfterMs) && Known(end)
    ensures r !in mid.procs && r != not
    ensures end == mid.(procs := mid.procs[r := Idle], born := mid.born + {r}) && Free(end, r)
  {
    r := Above(mid.born + {not});
    end := Then(s, mid, Start(r), staleAfterMs);
  }

  /** A newcomer claims an absent file. */
  lemma Joins(s: State, mid: State, not: Pid, staleAfterMs: nat) returns (r: Pid, end: State)
    requires Reaches(s, mid, staleAfterMs) && Known(mid) && mid.file.Absent?
    ensures Reaches(s, end, staleAfterMs) && Known(end)
    ensures r !in mid.procs && r != not
    ensures exists nonce ::
      end.file == Carries(Document(nonce, r, mid.now)) && end.procs == mid.procs[r := Holding(nonce, Resting)]
  {
    var t;
    r, t := Arrives(s, mid, not, staleAfterMs);
    var nonce := Above(t.used);
    end := Then(s, t, Install(r, nonce), staleAfterMs);
    assert end.procs == mid.procs[r := Holding(nonce, Resting)];
  }

  /** A free process waits long enough, reads the dead process's claim, judges it and renames it away. */
  lemma Clears(s: State, mid: State, r: Pid, staleAfterMs: nat) returns (end: State)
    requires Reaches(s, mid, staleAfterMs) && Free(mid, r) && mid.file.Carries? && mid.file.doc.pid !in mid.procs
    ensures Reaches(s, end, staleAfterMs)
    ensures exists later :: end == mid.(file := Absent, now := later)
  {
    var late := mid.now + mid.file.doc.heartbeatAt + staleAfterMs;
    var t := Then(s, mid, Tick(late), staleAfterMs);
    t := Then(s, t, Read(r), staleAfterMs);
    t := Then(s, t, Judge(r, Gone), staleAfterMs);
    end := Then(s, t, Reclaim(r), staleAfterMs);
    assert end.procs == mid.procs;
    assert end == mid.(file := Absent, now := late);
  }

  /** Next to a holder the file of a dead process is reclaimed, and a second holder installs its own. */
  lemma TakesOver(s: State, mid: State, q: Pid, staleAfterMs: nat) returns (end: State)
    requires Reaches(s, mid, staleAfterMs) && Known(mid) && IsHolder(mid, q)
    requires mid.file.Carries? && mid.file.doc.pid !in mid.procs
    ensures Reaches(s, end, staleAfterMs) && !Exclusive(end)
  {
    var r, t := Arrives(s, mid, mid.file.doc.pid, staleAfterMs);
    t := Clears(s, t, r, staleAfterMs);
    var p;
    p, end := Joins(s, t, q, staleAfterMs);
    assert IsHolder(end, p) && IsHolder(end, q);
  }

  /** A removal has moved a foreign claim aside and nobody holds one: a newcomer does, the foreign claim comes back over
      its claim, and is reclaimed once its owner is dead. */
  lemma ComesBack(s: State, p: Pid, staleAfterMs: nat) returns (end: State)
    requires Known(s) && s.file.Absent?
    requires p in s.procs && s.procs[p].Removing? && s.procs[p].parked.Carries? && !OwnParked(s.procs[p])
    ensures Reaches(s, end, staleAfterMs) && !Exclusive(end)
  {
    Stay(s, staleAfterMs);
    var owner := s.procs[p].parked.doc.pid;
    var r, t := Joins(s, s, owner, staleAfterMs);
    assert t.procs[p] == s.procs[p];
    t := Then(s, t, Settle(p), staleAfterMs);
    t := OwnerGone(s, t, r, owner, staleAfterMs);
    end := TakesOver(s, t, r, staleAfterMs);
  }

  /** The owner of the claim in the file dies, unless it has already. */
  lemma OwnerGone(s: State, mid: State, r: Pid, owner: Pid, staleAfterMs: nat) returns (end: State)
    requires Reaches(s, mid, staleAfterMs) && Known(mid) && IsHolder(mid, r) && r != owner
    ensures Reaches(s, end, staleAfterMs) && Known(end) && IsHolder(end, r)
    ensures end.file == mid.file && owner !in end.procs
  {
    end := mid;
    if owner in mid.procs {
      end := Then(s, mid, Die(owner), staleAfterMs);
    }
  }

  lemma UntimelyIsUnsafe(s: State, step: Step, staleAfterMs: nat)
    requires Inv(s) && Enabled(s, step, staleAfterMs) && !Timely(s, step)
    ensures !Safe(After(s, step, staleAfterMs), staleAfterMs)
  {
    var t := After(s, step, staleAfterMs);
    StepKeepsKnown(s, step, staleAfterMs);
    Stay(t, staleAfterMs);
    if q :| IsHolder(s, q) && q != step.p {
      assert IsHolder(t, q);
      if step.AdoptPublish? {
        assert IsHolder(t, step.p);
      } else {
        var r, end := Joins(t, t, q, staleAfterMs);
        assert IsHolder(end, r) && IsHolder(end, q);
      }
    } else {
      var end := ComesBack(t, step.p, staleAfterMs);
    }
  }

  /** Renaming a judged claim away, publishing an adoption or moving a claim aside is safe, in every careful continuation
      with any number of newcomers, if and only if no other process holds the claim and, for a removal, the file is absent
      or carries the remover's own nonce. */
  lemma SafeIffTimely(s: State, step: Step, staleAfterMs: nat)
    requires Inv(s) && Enabled(s, step, staleAfterMs) && TouchesClaim(step)
    ensures Safe(After(s, step, staleAfterMs), staleAfterMs) <==> Timely(s, step)
  {
    if Timely(s, step) {
      StepKeepsInv(s, step, staleAfterMs);
      InvIsSafe(After(s, step, staleAfterMs), staleAfterMs);
    } else {
      UntimelyIsUnsafe(s, step, staleAfterMs);
    }
  }

  /** A step keeps the invariant if and only if it does not come too late. */
  lemma StepKeepsInvIff(s: State, step: Step, staleAfterMs: nat)
    requires Inv(s) && Enabled(s, step, staleAfterMs)
    ensures Inv(After(s, step, staleAfterMs)) <==> Timely(s, step)
  {
    if Timely(s, step) {
      StepKeepsInv(s, step, staleAfterMs);
    } else {
      UntimelyIsUnsafe(s, step, staleAfterMs);
      if Inv(After(s, step, staleAfterMs)) {
        InvIsSafe(After(s, step, staleAfterMs), staleAfterMs);
      }
    }
  }

  // ----- whole runs -----

  /** The states that `steps` lead through from an initial one. */
  ghost predicate Runs(states: seq<State>, steps: seq<Step>, staleAfterMs: nat) {
    && |states| == |steps| + 1 && Init(states[0])
    && forall i | 0 <= i < |steps| :: Follows(states, steps, i, staleAfterMs)
  }

  ghost predicate Follows(states: seq<State>, steps: seq<Step>, i: nat, staleAfterMs: nat)
    requires i < |steps| && |states| == |steps| + 1
  {
    Enabled(states[i], steps[i], staleAfterMs) && states[i + 1] == After(states[i], steps[i], staleAfterMs)
  }

  /** One of the first `i` steps came too late. */
  ghost predicate Lapsed(states: seq<State>, steps: seq<Step>, i: nat)
    requires i <= |steps| && |states| == |steps| + 1
  {
    exists j | 0 <= j < i :: !Timely(states[j], steps[j])
  }

  /** Until something comes too late, the invariant holds. */
  lemma {:induction false} RunKeepsInv(states: seq<State>, steps: seq<Step>, staleAfterMs: nat, i: nat)
    requires Runs(states, steps, staleAfterMs) && i <= |steps|
    ensures Inv(states[i]) || Lapsed(states, steps, i)
    decreases i
  {
    if i > 0 {
      RunKeepsInv(states, steps, staleAfterMs, i - 1);
      assert Follows(states, steps, i - 1, staleAfterMs);
      if !Lapsed(states, steps, i) {
        assert Timely(states[i - 1], steps[i - 1]);
        StepKeepsInv(states[i - 1], steps[i - 1], staleAfterMs);
      }
    }
  }

  /** A run is safe all along, whatever careful processes do next, if and only if nothing in it came too late. */
  lemma RunIsSafeIff(states: seq<State>, steps: seq<Step>, staleAfterMs: nat, i: nat)
    requires Runs(states, steps, staleAfterMs) && i <= |steps|
    ensures (forall j | 0 <= j <= i :: Safe(states[j], staleAfterMs)) <==> !Lapsed(states, steps, i)
  {
    if Lapsed(states, steps, i) {
      var j :| 0 <= j < i && !Timely(states[j], steps[j]);
      var first := FirstLapse(states, steps, j);
      RunKeepsInv(states, steps, staleAfterMs, first);
      assert Follows(states, steps, first, staleAfterMs);
      UntimelyIsUnsafe(states[first], steps[first], staleAfterMs);
    } else {
      forall j | 0 <= j <= i ensures Safe(states[j], staleAfterMs) {
        RunKeepsInv(states, steps, staleAfterMs, j);
        InvIsSafe(states[j], staleAfterMs);
      }
    }
  }

  lemma {:induction false} FirstLapse(states: seq<State>, steps: seq<Step>, j: nat) returns (first: nat)
    requires j < |steps| && |states| == |steps| + 1 && !Timely(states[j], steps[j])
    ensures first <= j && !Timely(states[first], steps[first]) && !Lapsed(states, steps, first)
    decreases j
  {
    if Lapsed(states, steps, j) {
      var k :| 0 <= k < j && !Timely(states[k], steps[k]);
      first := FirstLapse(states, steps, k);
    } else {
      first := j;
    }
  }

  /** In every run at most one live process holds the claim and the file carries its nonce and pid, as long as nothing
      came too late. */
  lemma RunIsExclusive(states: seq<State>, steps: seq<Step>, staleAfterMs: nat, i: nat)
    requires Runs(states, steps, staleAfterMs) && i <= |steps|
    ensures (Exclusive(states[i]) && HoldersAreNamed(states[i])) || Lapsed(states, steps, i)
  {
    RunKeepsInv(states, steps, staleAfterMs, i);
  }

  // ----- what a live holder can rely on -----

  predicate By(step: Step, p: Pid) {
    !step.Tick? && step.p == p
  }

  /** The file names `q`, which is alive: it holds the claim, or has handed it off and no child has adopted it yet. */
  predicate Owns(s: State, q: Pid) {
    q in s.procs && s.file.Carries? && s.file.doc.pid == q
  }

  predicate FileShows(s: State, offer: Offer) {
    CarriesNonce(s, offer.nonce) && s.file.doc.pid == offer.parent
  }

  /** The child that the claim in the file was handed to makes it its own. */
  predicate AdoptsClaim(s: State, step: Step) {
    step.AdoptPublish? && step.p in s.procs && s.procs[step.p].Adopting? && FileShows(s, Offer(s.procs[step.p].nonce, s.procs[step.p].parent))
  }

  /** Another process's step takes the claim of a live owner out of its place if and only if it acts on a reading that no
      longer holds or is the adoption the claim was handed off for. */
  lemma LiveClaimIsLeftAlone(s: State, step: Step, q: Pid, staleAfterMs: nat)
    requires Inv(s) && Enabled(s, step, staleAfterMs) && Owns(s, q) && !By(step, q)
    ensures Does(After(s, step, staleAfterMs), q, s.procs[q])
    ensures After(s, step, staleAfterMs).file == s.file <==> Disciplined(s, step) && !AdoptsClaim(s, step)
  {
    var t := After(s, step, staleAfterMs);
    if TouchesClaim(step) {
      assert t.file != s.file;
    }
  }

  /** A claim that is held is left alone if and only if the step does not come too late. */
  lemma HeldClaimIsLeftAlone(s: State, step: Step, q: Pid, staleAfterMs: nat)
    requires Inv(s) && Enabled(s, step, staleAfterMs) && IsHolder(s, q) && !By(step, q)
    ensures After(s, step, staleAfterMs).file == s.file <==> Timely(s, step)
  {
    LiveClaimIsLeftAlone(s, step, q, staleAfterMs);
    if Disciplined(s, step) {
      DisciplineIsTimely(s, step, staleAfterMs);
    }
    assert TouchesClaim(step) ==> !NoRival(s, step.p);
  }

  /** What may end the stay of `q`'s claim: an act of its own, an act on a reading that no longer holds, the adoption. */
  ghost predicate Moves(s: State, step: Step, q: Pid) {
    By(step, q) || !Disciplined(s, step) || AdoptsClaim(s, step)
  }

  /** From the moment a live process's claim is in the file, handed off or not, it stays there until the owner acts, the
      child it was handed to adopts it, or some process acts on a reading that no longer holds. */
  lemma {:induction false} ClaimStays(states: seq<State>, steps: seq<Step>, staleAfterMs: nat, i: nat, j: nat, q: Pid)
    requires Runs(states, steps, staleAfterMs) && i <= j <= |steps| && Owns(states[i], q)
    requires !Lapsed(states, steps, i)
    ensures (states[j].file == states[i].file && Owns(states[j], q) && !Lapsed(states, steps, j))
      || exists k | i <= k < j :: Moves(states[k], steps[k], q)
    decreases j
  {
    if i < j && forall k | i <= k < j :: !Moves(states[k], steps[k], q) {
      ClaimStays(states, steps, staleAfterMs, i, j - 1, q);
      RunKeepsInv(states, steps, staleAfterMs, j - 1);
      assert Follows(states, steps, j - 1, staleAfterMs);
      LiveClaimIsLeftAlone(states[j - 1], steps[j - 1], q, staleAfterMs);
      DisciplineIsTimely(states[j - 1], steps[j - 1], staleAfterMs);
    }
  }

  predicate MidBeat(s: State, p: Pid) {
    IsHolder(s, p) && s.procs[p].beat == Verified
  }

  /** The heartbeat that `p` has verified can still come to overwrite another live holder's claim. */
  ghost predicate BeatMayOverwrite(s: State, p: Pid, staleAfterMs: nat) {
    exists end | Reaches(s, end, staleAfterMs) ::
      MidBeat(end, p) && end.file.Carries? && end.file.doc.pid != p && IsHolder(end, end.file.doc.pid)
  }

  /** The heartbeat's window between verifying and publishing: another's step lets it overwrite a rival's claim if and only
      if that step comes too late. The heartbeat opens no window of its own. */
  lemma HeartbeatWindow(s: State, step: Step, p: Pid, staleAfterMs: nat)
    requires Inv(s) && Enabled(s, step, staleAfterMs) && MidBeat(s, p) && !By(step, p)
    ensures BeatMayOverwrite(After(s, step, staleAfterMs), p, staleAfterMs) <==> !Timely(s, step)
  {
    var t := After(s, step, staleAfterMs);
    if Timely(s, step) {
      StepKeepsInv(s, step, staleAfterMs);
      forall end | Reaches(t, end, staleAfterMs) && MidBeat(end, p)
        ensures end.file.Carries? && end.file.doc.pid == p
      {
        ReachesKeepsInv(t, end, staleAfterMs);
      }
    } else {
      StepKeepsKnown(s, step, staleAfterMs);
      Stay(t, staleAfterMs);
      if !step.AdoptPublish? {
        assert CarriesNonce(s, s.procs[p].nonce);
        var r, end := Joins(t, t, p, staleAfterMs);
        assert MidBeat(end, p) && IsHolder(end, r);
      }
    }
  }

  /** What a heartbeat replaces is its own claim, as long as nothing came too late. */
  lemma HeartbeatReplacesOwnClaim(states: seq<State>, steps: seq<Step>, staleAfterMs: nat, i: nat)
    requires Runs(states, steps, staleAfterMs) && i < |steps| && steps[i].BeatPublish?
    ensures Lapsed(states, steps, i)
      || (&& states[i].file.Carries? && states[i].file.doc.pid == steps[i].p
          && states[i + 1].file == Carries(states[i].file.doc.(heartbeatAt := states[i].now)))
  {
    RunKeepsInv(states, steps, staleAfterMs, i);
    assert Follows(states, steps, i, staleAfterMs);
  }

  // ----- handoffs -----

  lemma {:induction false} AdoptedGrows(states: seq<State>, steps: seq<Step>, staleAfterMs: nat, i: nat, j: nat)
    requires Runs(states, steps, staleAfterMs) && i <= j < |states|
    ensures states[i].adopted <= states[j].adopted
    decreases j
  {
    if i < j {
      AdoptedGrows(states, steps, staleAfterMs, i, j - 1);
      assert Follows(states, steps, j - 1, staleAfterMs);
    }
  }

  ghost predicate Adopts(s: State, step: Step, offer: Offer) {
    step.AdoptPublish? && Does(s, step.p, Adopting(offer.nonce, offer.parent))
  }

  /** Of all the children that were given a handoff, only one adopts it from a file that still shows it. */
  lemma AdoptedFromFileOnce(states: seq<State>, steps: seq<Step>, staleAfterMs: nat, i: nat, j: nat, offer: Offer)
    requires Runs(states, steps, staleAfterMs) && i < j < |steps|
    requires Adopts(states[i], steps[i], offer) && Adopts(states[j], steps[j], offer)
    ensures !FileShows(states[j], offer) || Lapsed(states, steps, j)
  {
    RunKeepsInv(states, steps, staleAfterMs, j);
    assert Follows(states, steps, i, staleAfterMs);
    assert offer in states[i + 1].adopted;
    AdoptedGrows(states, steps, staleAfterMs, i + 1, j);
  }
}
