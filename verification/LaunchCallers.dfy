/** What the callers of the launch claim do, and what that guarantees: a parent clears a claim it has handed off only when
    its child is gone, and a child never hands its claim on
    (crates/bookforge-cli/src/commands/retry.rs:291-401, 514-600; crates/bookforge-cli/src/commands/serve/jobs.rs:602-626;
    crates/bookforge-cli/src/commands/resume.rs:208, 420-432, 733-735). */
module LaunchCallers {
  import opened LaunchClaim
  import opened LaunchSafety
  import opened LaunchPrompt

  /** One of the first `i` steps was the offering process spawning `child` under that handoff. */
  ghost predicate Spawned(states: seq<State>, steps: seq<Step>, i: nat, offer: Offer, child: Pid)
    requires i <= |steps| && |states| == |steps| + 1
  {
    exists j | 0 <= j < i :: steps[j] == SpawnChild(offer.parent, child) && Does(states[j], offer.parent, HandedOff(offer.nonce))
  }

  /** A process removes a claim only when every child it spawned under that claim is gone, and hands off only a claim that
      it has installed itself. */
  ghost predicate CallerAt(states: seq<State>, steps: seq<Step>, i: nat)
    requires i < |steps| && |states| == |steps| + 1
  {
    match steps[i]
    case Park(p) =>
      HasHandle(states[i], p) ==>
        forall child | Spawned(states, steps, i, Offer(states[i].procs[p].nonce, p), child) :: child !in states[i].procs
    case Handoff(p) => IsHolder(states[i], p) ==> Installed(steps, i, p, states[i].procs[p].nonce)
    case _ => true
  }

  ghost predicate Callers(states: seq<State>, steps: seq<Step>) {
    |states| == |steps| + 1 && forall i | 0 <= i < |steps| :: CallerAt(states, steps, i)
  }

  // ----- where a nonce comes from -----

  ghost predicate Installed(steps: seq<Step>, i: nat, p: Pid, nonce: Nonce)
    requires i <= |steps|
  {
    exists j | 0 <= j < i :: steps[j] == Install(p, nonce)
  }

  ghost predicate AdoptedBy(states: seq<State>, steps: seq<Step>, i: nat, p: Pid, offer: Offer)
    requires i <= |steps| && |states| == |steps| + 1
  {
    exists j | 0 <= j < i :: steps[j] == AdoptPublish(p) && Adopts(states[j], steps[j], offer)
  }

  predicate HasClaim(activity: Activity) {
    activity.Holding? || activity.HandedOff? || activity.Cleared? || activity.Removing?
  }

  /** `p` installed `nonce`, or adopted it from the process that did, its parent. */
  ghost predicate CameBy(states: seq<State>, steps: seq<Step>, i: nat, p: Pid, nonce: Nonce)
    requires i <= |steps| && |states| == |steps| + 1
  {
    Installed(steps, i, p, nonce) || exists parent :: Inherited(states, steps, i, p, nonce, parent)
  }

  ghost predicate Inherited(states: seq<State>, steps: seq<Step>, i: nat, p: Pid, nonce: Nonce, parent: Pid)
    requires i <= |steps| && |states| == |steps| + 1
  {
    && Spawned(states, steps, i, Offer(nonce, parent), p) && Installed(steps, i, parent, nonce)
    && AdoptedBy(states, steps, i, p, Offer(nonce, parent))
  }

  ghost predicate OffersAreTraced(states: seq<State>, steps: seq<Step>, i: nat)
    requires i <= |steps| && |states| == |steps| + 1
  {
    && (forall p | p in states[i].offers :: Spawned(states, steps, i, states[i].offers[p], p))
    && (forall p | p in states[i].procs && states[i].procs[p].Adopting? ::
          Spawned(states, steps, i, Offer(states[i].procs[p].nonce, states[i].procs[p].parent), p))
  }

  ghost predicate GiversInstalled(states: seq<State>, steps: seq<Step>, i: nat)
    requires i <= |steps| && |states| == |steps| + 1
  {
    forall o | o in states[i].given :: Installed(steps, i, o.parent, o.nonce)
  }

  ghost predicate ClaimsAreTraced(states: seq<State>, steps: seq<Step>, i: nat)
    requires i <= |steps| && |states| == |steps| + 1
  {
    forall p | p in states[i].procs && HasClaim(states[i].procs[p]) :: CameBy(states, steps, i, p, states[i].procs[p].nonce)
  }

  lemma AdoptionLasts(states: seq<State>, steps: seq<Step>, i: nat, p: Pid, offer: Offer)
    requires i < |steps| && |states| == |steps| + 1 && AdoptedBy(states, steps, i, p, offer)
    ensures AdoptedBy(states, steps, i + 1, p, offer)
  {
  }

  lemma TracesLast(states: seq<State>, steps: seq<Step>, i: nat, p: Pid, nonce: Nonce)
    requires i < |steps| && |states| == |steps| + 1 && CameBy(states, steps, i, p, nonce)
    ensures CameBy(states, steps, i + 1, p, nonce)
  {
    if !Installed(steps, i, p, nonce) {
      var parent :| Inherited(states, steps, i, p, nonce, parent);
      AdoptionLasts(states, steps, i, p, Offer(nonce, parent));
      SpawnLasts(states, steps, i, Offer(nonce, parent), p);
      assert Inherited(states, steps, i + 1, p, nonce, parent);
    }
  }

  /** An adopter inherits the nonce from its parent. */
  lemma AdopterInherits(states: seq<State>, steps: seq<Step>, i: nat, p: Pid)
    requires i < |steps| && |states| == |steps| + 1 && Known(states[i]) && OffersAreTraced(states, steps, i) && GiversInstalled(states, steps, i)
    requires steps[i] == AdoptPublish(p) && p in states[i].procs && states[i].procs[p].Adopting?
    ensures CameBy(states, steps, i + 1, p, states[i].procs[p].nonce)
  {
    var parent, nonce := states[i].procs[p].parent, states[i].procs[p].nonce;
    assert Offer(nonce, parent) in states[i].given;
    SpawnLasts(states, steps, i, Offer(nonce, parent), p);
    assert Installed(steps, i, parent, nonce);
    assert Adopts(states[i], steps[i], Offer(nonce, parent));
    assert Inherited(states, steps, i + 1, p, nonce, parent);
  }

  lemma {:induction false} RunKeepsKnown(states: seq<State>, steps: seq<Step>, staleAfterMs: nat, i: nat)
    requires Runs(states, steps, staleAfterMs) && i <= |steps|
    ensures Known(states[i])
    decreases i
  {
    if i > 0 {
      RunKeepsKnown(states, steps, staleAfterMs, i - 1);
      assert Follows(states, steps, i - 1, staleAfterMs);
      StepKeepsKnown(states[i - 1], steps[i - 1], staleAfterMs);
    }
  }

  lemma SpawnLasts(states: seq<State>, steps: seq<Step>, i: nat, offer: Offer, child: Pid)
    requires i < |steps| && |states| == |steps| + 1 && Spawned(states, steps, i, offer, child)
    ensures Spawned(states, steps, i + 1, offer, child)
  {
  }

  lemma OffersStayTraced(states: seq<State>, steps: seq<Step>, staleAfterMs: nat, i: nat)
    requires i < |steps| && |states| == |steps| + 1 && Follows(states, steps, i, staleAfterMs)
    requires OffersAreTraced(states, steps, i)
    ensures OffersAreTraced(states, steps, i + 1)
  {
    var s, t, step := states[i], states[i + 1], steps[i];
    forall p | p in t.offers ensures Spawned(states, steps, i + 1, t.offers[p], p) {
      if step.SpawnChild? && step.child == p {
        assert Does(s, step.p, HandedOff(t.offers[p].nonce));
      } else {
        SpawnLasts(states, steps, i, s.offers[p], p);
      }
    }
    forall p | p in t.procs && t.procs[p].Adopting?
      ensures Spawned(states, steps, i + 1, Offer(t.procs[p].nonce, t.procs[p].parent), p)
    {
      if step.AdoptVerify? && step.p == p {
        SpawnLasts(states, steps, i, s.offers[p], p);
      } else {
        SpawnLasts(states, steps, i, Offer(s.procs[p].nonce, s.procs[p].parent), p);
      }
    }
  }

  lemma GiversStayInstalled(states: seq<State>, steps: seq<Step>, staleAfterMs: nat, i: nat)
    requires i < |steps| && |states| == |steps| + 1 && Follows(states, steps, i, staleAfterMs) && CallerAt(states, steps, i)
    requires GiversInstalled(states, steps, i)
    ensures GiversInstalled(states, steps, i + 1)
  {
    forall o | o in states[i + 1].given ensures Installed(steps, i + 1, o.parent, o.nonce) {
      assert Installed(steps, i, o.parent, o.nonce);
    }
  }

  lemma ClaimsStayTraced(states: seq<State>, steps: seq<Step>, staleAfterMs: nat, i: nat)
    requires i < |steps| && |states| == |steps| + 1 && Follows(states, steps, i, staleAfterMs)
    requires Known(states[i]) && OffersAreTraced(states, steps, i) && GiversInstalled(states, steps, i)
    requires ClaimsAreTraced(states, steps, i)
    ensures ClaimsAreTraced(states, steps, i + 1)
  {
    var s, t, step := states[i], states[i + 1], steps[i];
    forall p | p in t.procs && HasClaim(t.procs[p]) ensures CameBy(states, steps, i + 1, p, t.procs[p].nonce) {
      if step.Install? && step.p == p {
        assert Installed(steps, i + 1, p, step.nonce);
      } else if step.AdoptPublish? && step.p == p {
        AdopterInherits(states, steps, i, p);
      } else {
        assert p in s.procs && HasClaim(s.procs[p]) && t.procs[p].nonce == s.procs[p].nonce;
        TracesLast(states, steps, i, p, t.procs[p].nonce);
      }
    }
  }

  lemma {:induction false} RunTracesOffers(states: seq<State>, steps: seq<Step>, staleAfterMs: nat, i: nat)
    requires Runs(states, steps, staleAfterMs) && i <= |steps|
    ensures OffersAreTraced(states, steps, i)
    decreases i
  {
    if i > 0 {
      RunTracesOffers(states, steps, staleAfterMs, i - 1);
      assert Follows(states, steps, i - 1, staleAfterMs);
      OffersStayTraced(states, steps, staleAfterMs, i - 1);
    }
  }

  /** Every nonce that a process has a claim under it has installed itself, or adopted from its parent, which had. */
  lemma {:induction false} RunTracesClaims(states: seq<State>, steps: seq<Step>, staleAfterMs: nat, i: nat)
    requires Runs(states, steps, staleAfterMs) && Callers(states, steps) && i <= |steps|
    ensures GiversInstalled(states, steps, i) && ClaimsAreTraced(states, steps, i)
    decreases i
  {
    if i > 0 {
      RunTracesClaims(states, steps, staleAfterMs, i - 1);
      RunTracesOffers(states, steps, staleAfterMs, i - 1);
      RunKeepsKnown(states, steps, staleAfterMs, i - 1);
      assert Follows(states, steps, i - 1, staleAfterMs) && CallerAt(states, steps, i - 1);
      GiversStayInstalled(states, steps, staleAfterMs, i - 1);
      ClaimsStayTraced(states, steps, staleAfterMs, i - 1);
    }
  }

  // ----- a nonce is installed once and adopted once -----

  lemma {:induction false} UsedGrows(states: seq<State>, steps: seq<Step>, staleAfterMs: nat, i: nat, j: nat)
    requires Runs(states, steps, staleAfterMs) && i <= j < |states|
    ensures states[i].used <= states[j].used
    decreases j
  {
    if i < j {
      UsedGrows(states, steps, staleAfterMs, i, j - 1);
      assert Follows(states, steps, j - 1, staleAfterMs);
    }
  }

  lemma InstalledByOne(states: seq<State>, steps: seq<Step>, staleAfterMs: nat, i: nat, p: Pid, q: Pid, nonce: Nonce)
    requires Runs(states, steps, staleAfterMs) && i <= |steps|
    requires Installed(steps, i, p, nonce) && Installed(steps, i, q, nonce)
    ensures p == q
  {
    var j :| 0 <= j < i && steps[j] == Install(p, nonce);
    var k :| 0 <= k < i && steps[k] == Install(q, nonce);
    if j != k {
      var first, second := if j < k then j else k, if j < k then k else j;
      assert Follows(states, steps, first, staleAfterMs) && Follows(states, steps, second, staleAfterMs);
      UsedGrows(states, steps, staleAfterMs, first + 1, second);
      assert false;
    }
  }

  /** With every pair one act: until a claim is taken back, a handoff is adopted by one child. */
  lemma AdoptedByOne(states: seq<State>, steps: seq<Step>, staleAfterMs: nat, i: nat, p: Pid, q: Pid, offer: Offer)
    requires Runs(states, steps, staleAfterMs) && Prompt(states, steps) && i <= |steps| && !TookBack(states, steps, 0, i)
    requires AdoptedBy(states, steps, i, p, offer) && AdoptedBy(states, steps, i, q, offer)
    ensures p == q
  {
    var j :| 0 <= j < i && steps[j] == AdoptPublish(p) && Adopts(states[j], steps[j], offer);
    var k :| 0 <= k < i && steps[k] == AdoptPublish(q) && Adopts(states[k], steps[k], offer);
    if j < k {
      AdoptedBefore(states, steps, staleAfterMs, i, j, k, offer);
    } else if k < j {
      AdoptedBefore(states, steps, staleAfterMs, i, k, j, offer);
    }
  }

  lemma AdoptedBefore(states: seq<State>, steps: seq<Step>, staleAfterMs: nat, i: nat, j: nat, k: nat, offer: Offer)
    requires Runs(states, steps, staleAfterMs) && Prompt(states, steps) && i <= |steps| && !TookBack(states, steps, 0, i)
    requires j < k < i && Adopts(states[j], steps[j], offer)
    ensures !Adopts(states[k], steps[k], offer)
  {
    assert Follows(states, steps, j, staleAfterMs);
    AdoptedGrows(states, steps, staleAfterMs, j + 1, k);
    if Adopts(states[k], steps[k], offer) {
      assert AtOnceAt(states, steps, k);
      PromptKeepsCore(states, steps, staleAfterMs, k);
      PromptActIsDisciplined(states, steps, staleAfterMs, k);
    }
  }

  // ----- no caller takes a claim back -----

  /** Two processes came by one nonce and one of them holds it: the other is its child, or else its parent. */
  lemma CarriersAreKin(states: seq<State>, steps: seq<Step>, staleAfterMs: nat, i: nat, p: Pid, q: Pid, nonce: Nonce)
    requires Runs(states, steps, staleAfterMs) && Prompt(states, steps) && i <= |steps| && !TookBack(states, steps, 0, i)
    requires p != q && CameBy(states, steps, i, p, nonce) && CameBy(states, steps, i, q, nonce)
    ensures AdoptedBy(states, steps, i, p, Offer(nonce, q)) || Spawned(states, steps, i, Offer(nonce, p), q)
  {
    if Installed(steps, i, q, nonce) {
      if Installed(steps, i, p, nonce) {
        InstalledByOne(states, steps, staleAfterMs, i, p, q, nonce);
      } else {
        var parent :| Inherited(states, steps, i, p, nonce, parent);
        InstalledByOne(states, steps, staleAfterMs, i, parent, q, nonce);
      }
    } else {
      var parent :| Inherited(states, steps, i, q, nonce, parent);
      if Installed(steps, i, p, nonce) {
        InstalledByOne(states, steps, staleAfterMs, i, p, parent, nonce);
      } else {
        var other :| Inherited(states, steps, i, p, nonce, other);
        InstalledByOne(states, steps, staleAfterMs, i, parent, other, nonce);
        AdoptedByOne(states, steps, staleAfterMs, i, p, q, Offer(nonce, parent));
      }
    }
  }

  /** A process whose handoff was adopted no longer holds the claim. */
  lemma GiverHoldsNothing(states: seq<State>, steps: seq<Step>, staleAfterMs: nat, i: nat, p: Pid, offer: Offer)
    requires Runs(states, steps, staleAfterMs) && i <= |steps| && Core(states[i]) && AdoptedBy(states, steps, i, p, offer)
    ensures !Holds(states[i], offer.parent, offer.nonce)
  {
    var j :| 0 <= j < i && steps[j] == AdoptPublish(p) && Adopts(states[j], steps[j], offer);
    assert Follows(states, steps, j, staleAfterMs);
    AdoptedGrows(states, steps, staleAfterMs, j + 1, i);
    assert offer in states[i].given;
  }

  /** A process that could take a claim back is its holder's parent, and still waits for it. */
  lemma NoCallerTakesBack(states: seq<State>, steps: seq<Step>, staleAfterMs: nat, i: nat)
    requires Runs(states, steps, staleAfterMs) && Prompt(states, steps) && Callers(states, steps) && i < |steps|
    requires !TookBack(states, steps, 0, i)
    ensures !TakesBack(states[i], steps[i])
  {
    if TakesBack(states[i], steps[i]) {
      var p, q, nonce := steps[i].p, states[i].file.doc.pid, states[i].procs[steps[i].p].nonce;
      if i > 0 {
        assert AtOnceAt(states, steps, i);
      }
      PromptKeepsCore(states, steps, staleAfterMs, i);
      RunTracesClaims(states, steps, staleAfterMs, i);
      assert Holds(states[i], q, nonce);
      CarriersAreKin(states, steps, staleAfterMs, i, p, q, nonce);
      assert CallerAt(states, steps, i);
      if AdoptedBy(states, steps, i, p, Offer(nonce, q)) {
        GiverHoldsNothing(states, steps, staleAfterMs, i, p, Offer(nonce, q));
      }
    }
  }

  /** In every run of these callers with each pair one act, no claim is ever taken back. */
  lemma CallersTakeNothingBack(states: seq<State>, steps: seq<Step>, staleAfterMs: nat)
    requires Runs(states, steps, staleAfterMs) && Prompt(states, steps) && Callers(states, steps)
    ensures !TookBack(states, steps, 0, |steps|)
  {
    if TookBack(states, steps, 0, |steps|) {
      var j :| 0 <= j < |steps| && TakesBack(states[j], steps[j]);
      var first := FirstTakenBack(states, steps, j);
      NoCallerTakesBack(states, steps, staleAfterMs, first);
    }
  }

  /** As its callers use it, the launch claim lacks nothing but the windows: were each pair one act, at most one live
      process would hold the claim in every state of every run. */
  lemma CallersAreExclusive(states: seq<State>, steps: seq<Step>, staleAfterMs: nat, i: nat)
    requires Runs(states, steps, staleAfterMs) && Prompt(states, steps) && Callers(states, steps) && i <= |steps|
    ensures Exclusive(states[i])
    ensures Settled(states, steps, i) ==> HoldersAreNamed(states[i])
  {
    CallersTakeNothingBack(states, steps, staleAfterMs);
    PromptRunIsExclusive(states, steps, staleAfterMs, i);
    if Settled(states, steps, i) {
      PromptKeepsCore(states, steps, staleAfterMs, i);
    }
  }

  // ----- one child per handoff -----

  /** No two children are spawned under one handoff. */
  ghost predicate OneChildEach(states: seq<State>, steps: seq<Step>) {
    && |states| == |steps| + 1
    && forall offer, c, d | Spawned(states, steps, |steps|, offer, c) && Spawned(states, steps, |steps|, offer, d) :: c == d
  }

  /** The child of an adopted handoff is past its adoption. */
  ghost predicate AdoptersAreDone(states: seq<State>, steps: seq<Step>, i: nat)
    requires i <= |steps| && |states| == |steps| + 1
  {
    forall o | o in states[i].adopted :: exists child :: IsDone(states, steps, i, o, child)
  }

  ghost predicate IsDone(states: seq<State>, steps: seq<Step>, i: nat, offer: Offer, child: Pid)
    requires i <= |steps| && |states| == |steps| + 1
  {
    && Spawned(states, steps, i, offer, child) && child in states[i].born && child !in states[i].offers
    && (child in states[i].procs ==> !states[i].procs[child].Adopting?)
  }

  lemma {:induction false} SpawnStays(states: seq<State>, steps: seq<Step>, i: nat, j: nat, offer: Offer, child: Pid)
    requires i <= j <= |steps| && |states| == |steps| + 1 && Spawned(states, steps, i, offer, child)
    ensures Spawned(states, steps, j, offer, child)
  {
  }

  lemma DoneStays(states: seq<State>, steps: seq<Step>, staleAfterMs: nat, i: nat, offer: Offer, child: Pid)
    requires i < |steps| && |states| == |steps| + 1 && Follows(states, steps, i, staleAfterMs)
    requires IsDone(states, steps, i, offer, child)
    ensures IsDone(states, steps, i + 1, offer, child)
  {
    SpawnLasts(states, steps, i, offer, child);
  }

  lemma DoneNow(states: seq<State>, steps: seq<Step>, staleAfterMs: nat, i: nat, offer: Offer)
    requires i < |steps| && |states| == |steps| + 1 && Follows(states, steps, i, staleAfterMs)
    requires Known(states[i]) && OffersAreTraced(states, steps, i) && Adopts(states[i], steps[i], offer)
    ensures IsDone(states, steps, i + 1, offer, steps[i].p)
  {
    SpawnLasts(states, steps, i, offer, steps[i].p);
  }

  lemma NewlyAdopted(s: State, step: Step, staleAfterMs: nat, offer: Offer)
    requires Enabled(s, step, staleAfterMs) && offer in After(s, step, staleAfterMs).adopted && offer !in s.adopted
    ensures Adopts(s, step, offer)
  {
  }

  lemma AdoptersStayDone(states: seq<State>, steps: seq<Step>, staleAfterMs: nat, i: nat)
    requires i < |steps| && |states| == |steps| + 1 && Follows(states, steps, i, staleAfterMs)
    requires Known(states[i]) && OffersAreTraced(states, steps, i) && AdoptersAreDone(states, steps, i)
    ensures AdoptersAreDone(states, steps, i + 1)
  {
    var next := i + 1;
    forall o | o in states[next].adopted ensures exists child :: IsDone(states, steps, next, o, child) {
      if o in states[i].adopted {
        var child :| IsDone(states, steps, i, o, child);
        DoneStays(states, steps, staleAfterMs, i, o, child);
      } else {
        NewlyAdopted(states[i], steps[i], staleAfterMs, o);
        DoneNow(states, steps, staleAfterMs, i, o);
      }
    }
  }

  lemma {:induction false} RunKeepsAdoptersDone(states: seq<State>, steps: seq<Step>, staleAfterMs: nat, i: nat)
    requires Runs(states, steps, staleAfterMs) && i <= |steps|
    ensures AdoptersAreDone(states, steps, i)
    decreases i
  {
    if i > 0 {
      RunKeepsAdoptersDone(states, steps, staleAfterMs, i - 1);
      RunKeepsKnown(states, steps, staleAfterMs, i - 1);
      RunTracesOffers(states, steps, staleAfterMs, i - 1);
      assert Follows(states, steps, i - 1, staleAfterMs);
      AdoptersStayDone(states, steps, staleAfterMs, i - 1);
    }
  }

  /** With one child to a handoff, as all callers have it, no handoff is adopted twice: in every run, late acts and
      removals included. */
  lemma HandoffIsAdoptedOnce(states: seq<State>, steps: seq<Step>, staleAfterMs: nat, i: nat, j: nat, offer: Offer)
    requires Runs(states, steps, staleAfterMs) && OneChildEach(states, steps) && i < j < |steps|
    requires Adopts(states[i], steps[i], offer)
    ensures !Adopts(states[j], steps[j], offer)
  {
    assert Follows(states, steps, i, staleAfterMs);
    AdoptedGrows(states, steps, staleAfterMs, i + 1, j);
    RunKeepsAdoptersDone(states, steps, staleAfterMs, j);
    RunTracesOffers(states, steps, staleAfterMs, j);
    if Adopts(states[j], steps[j], offer) {
      var child :| IsDone(states, steps, j, offer, child);
      SpawnStays(states, steps, j, |steps|, offer, child);
      SpawnStays(states, steps, j, |steps|, offer, steps[j].p);
    }
  }
}
