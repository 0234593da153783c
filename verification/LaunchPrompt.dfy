/** Were every check and its rename one act: what the launch claim would then still get wrong, exactly
    (crates/bookforge-cli/src/control.rs:703-706, 803-814, 864-897; crates/bookforge-cli/src/commands/retry.rs:291-345). */
module LaunchPrompt {
  import opened LaunchClaim
  import opened LaunchSafety

  /** A removal by `p` is between its two renames. */
  predicate Moved(s: State, p: Pid) {
    p in s.procs && s.procs[p].Removing?
  }

  /** `next` may follow `before`, which led to `s`: reading, judging and renaming away, verifying and
      adopting, moving aside and settling are each one act. */
  predicate AtOnce(before: Step, s: State, next: Step) {
    match next
    case Judge(p, _) => before == Read(p)
    case Reclaim(p) => before.Judge? && before.p == p
    case AdoptPublish(p) => before == AdoptVerify(p)
    case Settle(p) => before == Park(p)
    case _ => before.Park? ==> !Moved(s, before.p)
  }

  ghost predicate Prompt(states: seq<State>, steps: seq<Step>) {
    |states| == |steps| + 1 && forall i | 0 < i < |steps| :: AtOnceAt(states, steps, i)
  }

  predicate AtOnceAt(states: seq<State>, steps: seq<Step>, i: nat)
    requires 0 < i < |steps| && |states| == |steps| + 1
  {
    AtOnce(steps[i - 1], states[i], steps[i])
  }

  /** A removal of the very claim that another live process has adopted: same nonce, other pid. */
  predicate TakesBack(s: State, step: Step) {
    && step.Park? && HasHandle(s, step.p) && CarriesNonce(s, s.procs[step.p].nonce)
    && s.file.doc.pid != step.p && IsHolder(s, s.file.doc.pid)
  }

  /** One of the steps from the `from`-th to the `to`-th took a claim back. */
  ghost predicate TookBack(states: seq<State>, steps: seq<Step>, from: nat, to: nat)
    requires to <= |steps| && |states| == |steps| + 1
  {
    exists j | from <= j < to :: TakesBack(states[j], steps[j])
  }

  // ----- what a removal at once keeps -----

  /** A removal of a foreign claim puts it back where it was. */
  lemma ForeignClaimReturns(s: State, p: Pid, staleAfterMs: nat)
    requires HasHandle(s, p) && !s.file.Absent? && !CarriesNonce(s, s.procs[p].nonce)
    ensures Enabled(After(s, Park(p), staleAfterMs), Settle(p), staleAfterMs)
    ensures After(After(s, Park(p), staleAfterMs), Settle(p), staleAfterMs) == Becomes(s, p, Cleared(s.procs[p].nonce))
  {
    var t := After(s, Park(p), staleAfterMs);
    assert t.procs[p].parked == s.file;
    assert After(t, Settle(p), staleAfterMs).procs == s.procs[p := Cleared(s.procs[p].nonce)];
  }

  lemma ClearingKeepsCore(s: State, p: Pid)
    requires Core(s) && HasHandle(s, p) && !IsHolder(s, p)
    ensures Core(Becomes(s, p, Cleared(s.procs[p].nonce)))
  {
    var t := Becomes(s, p, Cleared(s.procs[p].nonce));
    assert forall q | IsHolder(t, q) :: IsHolder(s, q);
  }

  lemma RemovalKeepsCore(s: State, p: Pid, staleAfterMs: nat)
    requires Core(s) && HasHandle(s, p) && !s.file.Absent? && !TakesBack(s, Park(p))
    ensures Enabled(After(s, Park(p), staleAfterMs), Settle(p), staleAfterMs)
    ensures Core(After(After(s, Park(p), staleAfterMs), Settle(p), staleAfterMs))
  {
    if CarriesNonce(s, s.procs[p].nonce) {
      assert Timely(s, Park(p));
      StepKeepsCore(s, Park(p), staleAfterMs);
      StepKeepsCore(After(s, Park(p), staleAfterMs), Settle(p), staleAfterMs);
    } else {
      assert !IsHolder(s, p);
      ForeignClaimReturns(s, p, staleAfterMs);
      ClearingKeepsCore(s, p);
    }
  }

  // ----- whole runs -----

  /** No removal is between its two renames. */
  predicate Settled(states: seq<State>, steps: seq<Step>, i: nat)
    requires i <= |steps| && |states| == |steps| + 1
  {
    i == 0 || !steps[i - 1].Park? || !Moved(states[i], steps[i - 1].p)
  }

  lemma SettledBefore(states: seq<State>, steps: seq<Step>, staleAfterMs: nat, i: nat)
    requires Runs(states, steps, staleAfterMs) && Prompt(states, steps) && 0 < i <= |steps|
    ensures Follows(states, steps, i - 1, staleAfterMs)
    ensures !steps[i - 1].Settle? ==> Settled(states, steps, i - 1)
    ensures steps[i - 1].Settle? ==>
      i > 1 && steps[i - 2] == Park(steps[i - 1].p) && Settled(states, steps, i - 2) && Follows(states, steps, i - 2, staleAfterMs)
  {
    assert Follows(states, steps, i - 1, staleAfterMs);
    if i > 1 {
      assert AtOnceAt(states, steps, i - 1);
      assert Follows(states, steps, i - 2, staleAfterMs);
      if i > 2 {
        assert AtOnceAt(states, steps, i - 2);
      }
    }
  }

  /** A reclaim or an adoption that follows its reading at once is disciplined. */
  lemma PromptActIsDisciplined(states: seq<State>, steps: seq<Step>, staleAfterMs: nat, i: nat)
    requires Runs(states, steps, staleAfterMs) && Prompt(states, steps) && i < |steps|
    requires steps[i].Reclaim? || steps[i].AdoptPublish?
    ensures Disciplined(states[i], steps[i])
  {
    assert Follows(states, steps, i, staleAfterMs);
    assert AtOnceAt(states, steps, i);
    assert Follows(states, steps, i - 1, staleAfterMs);
    if steps[i].Reclaim? {
      assert AtOnceAt(states, steps, i - 1);
      assert Follows(states, steps, i - 2, staleAfterMs);
    }
  }

  lemma PromptStepIsClean(states: seq<State>, steps: seq<Step>, staleAfterMs: nat, i: nat)
    requires Runs(states, steps, staleAfterMs) && Prompt(states, steps) && 0 < i <= |steps|
    requires Settled(states, steps, i) && !steps[i - 1].Settle? && Core(states[i - 1])
    ensures Clean(states[i - 1], steps[i - 1])
  {
    assert Follows(states, steps, i - 1, staleAfterMs);
    var s, step := states[i - 1], steps[i - 1];
    if step.Reclaim? || step.AdoptPublish? {
      PromptActIsDisciplined(states, steps, staleAfterMs, i - 1);
      DisciplineIsTimely(s, step, staleAfterMs);
    }
  }

  lemma {:induction false} PromptKeepsCore(states: seq<State>, steps: seq<Step>, staleAfterMs: nat, i: nat)
    requires Runs(states, steps, staleAfterMs) && Prompt(states, steps) && i <= |steps|
    requires Settled(states, steps, i)
    ensures Core(states[i]) || TookBack(states, steps, 0, i)
    decreases i
  {
    if i > 0 && !TookBack(states, steps, 0, i) {
      SettledBefore(states, steps, staleAfterMs, i);
      if steps[i - 1].Settle? {
        PromptKeepsCore(states, steps, staleAfterMs, i - 2);
        assert !TakesBack(states[i - 2], steps[i - 2]);
        RemovalKeepsCore(states[i - 2], steps[i - 1].p, staleAfterMs);
      } else {
        PromptKeepsCore(states, steps, staleAfterMs, i - 1);
        PromptStepIsClean(states, steps, staleAfterMs, i);
        StepKeepsCore(states[i - 1], steps[i - 1], staleAfterMs);
      }
    }
  }

  /** With every pair one act, a run is exclusive unless some process removed the claim that a live child had adopted. */
  lemma PromptRunIsExclusive(states: seq<State>, steps: seq<Step>, staleAfterMs: nat, i: nat)
    requires Runs(states, steps, staleAfterMs) && Prompt(states, steps) && i <= |steps|
    ensures Exclusive(states[i]) || TookBack(states, steps, 0, i)
  {
    if Settled(states, steps, i) {
      PromptKeepsCore(states, steps, staleAfterMs, i);
    } else {
      SettledBefore(states, steps, staleAfterMs, i);
      PromptKeepsCore(states, steps, staleAfterMs, i - 1);
      assert forall q | IsHolder(states[i], q) :: IsHolder(states[i - 1], q);
    }
  }

  // ----- and only then -----

  /** The run goes on promptly, and takes nothing back from there on. */
  ghost predicate GoesOn(states: seq<State>, steps: seq<Step>, states': seq<State>, steps': seq<Step>, staleAfterMs: nat) {
    && Runs(states', steps', staleAfterMs) && Prompt(states', steps')
    && states <= states' && steps <= steps' && !TookBack(states', steps', |steps|, |steps'|)
  }

  /** However the run goes on promptly without taking a claim back, at most one process holds the claim. */
  ghost predicate PromptlySafe(states: seq<State>, steps: seq<Step>, staleAfterMs: nat) {
    forall states', steps' | GoesOn(states, steps, states', steps', staleAfterMs) :: Exclusive(states'[|steps'|])
  }

  /** The run goes on promptly to `end`, the last step being `last`. */
  ghost predicate GoesOnTo(states: seq<State>, steps: seq<Step>, last: Step, end: State, staleAfterMs: nat) {
    exists states', steps' | GoesOn(states, steps, states', steps', staleAfterMs) ::
      steps' != [] && steps'[|steps'| - 1] == last && states'[|steps'|] == end
  }

  lemma Append(states: seq<State>, steps: seq<Step>, step: Step, staleAfterMs: nat) returns (end: State)
    requires Runs(states, steps, staleAfterMs) && Prompt(states, steps) && steps != []
    requires Enabled(states[|steps|], step, staleAfterMs) && AtOnce(steps[|steps| - 1], states[|steps|], step)
    ensures end == After(states[|steps|], step, staleAfterMs)
    ensures Runs(states + [end], steps + [step], staleAfterMs) && Prompt(states + [end], steps + [step])
  {
    var n := |steps|;
    end := After(states[n], step, staleAfterMs);
    forall i | 0 <= i <= n ensures Follows(states + [end], steps + [step], i, staleAfterMs) {
      if i < n {
        assert Follows(states, steps, i, staleAfterMs);
      }
    }
    forall i | 0 < i <= n ensures AtOnceAt(states + [end], steps + [step], i) {
      if i < n {
        assert AtOnceAt(states, steps, i);
      }
    }
  }

  lemma Continue(states: seq<State>, steps: seq<Step>, last: Step, mid: State, step: Step, staleAfterMs: nat)
    returns (end: State)
    requires GoesOnTo(states, steps, last, mid, staleAfterMs)
    requires Enabled(mid, step, staleAfterMs) && AtOnce(last, mid, step) && !TakesBack(mid, step)
    ensures end == After(mid, step, staleAfterMs) && GoesOnTo(states, steps, step, end, staleAfterMs)
  {
    var states', steps' :| GoesOn(states, steps, states', steps', staleAfterMs)
      && steps' != [] && steps'[|steps'| - 1] == last && states'[|steps'|] == mid;
    end := Append(states', steps', step, staleAfterMs);
    assert GoesOn(states, steps, states' + [end], steps' + [step], staleAfterMs);
  }

  lemma BeginAt(states: seq<State>, steps: seq<Step>, staleAfterMs: nat)
    requires Runs(states, steps, staleAfterMs) && Prompt(states, steps) && steps != []
    ensures GoesOnTo(states, steps, steps[|steps| - 1], states[|steps|], staleAfterMs)
  {
    assert GoesOn(states, steps, states, steps, staleAfterMs);
  }

  lemma TakingBackIsUnsafe(states: seq<State>, steps: seq<Step>, staleAfterMs: nat)
    requires Runs(states, steps, staleAfterMs) && Prompt(states, steps) && steps != []
    requires Core(states[|steps| - 1]) && TakesBack(states[|steps| - 1], steps[|steps| - 1])
    ensures !PromptlySafe(states, steps, staleAfterMs)
  {
    var n := |steps| - 1;
    assert Follows(states, steps, n, staleAfterMs);
    BeginAt(states, steps, staleAfterMs);
    var end := TakenClaimIsReplaced(states, steps, states[n], steps[n].p, staleAfterMs);
  }

  /** The claim of the live process `q` is removed, and a newcomer installs its own. */
  lemma TakenClaimIsReplaced(states: seq<State>, steps: seq<Step>, s: State, p: Pid, staleAfterMs: nat) returns (end: State)
    requires Core(s) && TakesBack(s, Park(p))
    requires GoesOnTo(states, steps, Park(p), After(s, Park(p), staleAfterMs), staleAfterMs)
    ensures !Exclusive(end) && exists last :: GoesOnTo(states, steps, last, end, staleAfterMs)
  {
    var t := After(s, Park(p), staleAfterMs);
    StepKeepsKnown(s, Park(p), staleAfterMs);
    var q := s.file.doc.pid;
    assert IsHolder(t, q);
    t := Continue(states, steps, Park(p), t, Settle(p), staleAfterMs);
    assert IsHolder(t, q);
    var r := Above(t.born);
    var nonce := Above(t.used);
    t := Continue(states, steps, Settle(p), t, Start(r), staleAfterMs);
    end := Continue(states, steps, Start(r), t, Install(r, nonce), staleAfterMs);
    assert IsHolder(end, q) && IsHolder(end, r);
  }

  lemma PrefixIsPrompt(states: seq<State>, steps: seq<Step>, staleAfterMs: nat, j: nat)
    requires Runs(states, steps, staleAfterMs) && Prompt(states, steps) && j <= |steps|
    ensures Runs(states[..j + 1], steps[..j], staleAfterMs) && Prompt(states[..j + 1], steps[..j])
  {
    var states', steps' := states[..j + 1], steps[..j];
    forall i | 0 <= i < j ensures Follows(states', steps', i, staleAfterMs) {
      assert Follows(states, steps, i, staleAfterMs);
    }
    forall i | 0 < i < j ensures AtOnceAt(states', steps', i) {
      assert AtOnceAt(states, steps, i);
    }
  }

  /** A prompt run is safe all along, however it goes on promptly, if and only if nothing in it took a claim back. */
  lemma PromptRunIsSafeIff(states: seq<State>, steps: seq<Step>, staleAfterMs: nat, i: nat)
    requires Runs(states, steps, staleAfterMs) && Prompt(states, steps) && i <= |steps|
    ensures (forall j | 0 <= j <= i :: PromptlySafe(states[..j + 1], steps[..j], staleAfterMs))
       <==> !TookBack(states, steps, 0, i)
  {
    if TookBack(states, steps, 0, i) {
      var j :| 0 <= j < i && TakesBack(states[j], steps[j]);
      var first := FirstTakenBack(states, steps, j);
      assert Follows(states, steps, first, staleAfterMs);
      if first > 0 {
        assert AtOnceAt(states, steps, first);
      }
      PromptKeepsCore(states, steps, staleAfterMs, first);
      PrefixIsPrompt(states, steps, staleAfterMs, first + 1);
      TakingBackIsUnsafe(states[..first + 2], steps[..first + 1], staleAfterMs);
      assert first + 1 <= i;
    } else {
      forall j | 0 <= j <= i ensures PromptlySafe(states[..j + 1], steps[..j], staleAfterMs) {
        forall states', steps' | GoesOn(states[..j + 1], steps[..j], states', steps', staleAfterMs)
          ensures Exclusive(states'[|steps'|])
        {
          PromptRunIsExclusive(states', steps', staleAfterMs, |steps'|);
        }
      }
    }
  }

  lemma {:induction false} FirstTakenBack(states: seq<State>, steps: seq<Step>, j: nat) returns (first: nat)
    requires j < |steps| && |states| == |steps| + 1 && TakesBack(states[j], steps[j])
    ensures first <= j && TakesBack(states[first], steps[first]) && !TookBack(states, steps, 0, first)
    decreases j
  {
    if TookBack(states, steps, 0, j) {
      var k :| 0 <= k < j && TakesBack(states[k], steps[k]);
      first := FirstTakenBack(states, steps, k);
    } else {
      first := j;
    }
  }
}
