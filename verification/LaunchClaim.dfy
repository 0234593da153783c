/** The cross-process launch claim: acquire, heartbeat, handoff, adopt, reclaim, remove, die
    (crates/bookforge-cli/src/control.rs:401-922). Every read that is followed by an act on the claim file is two
    steps, so other processes may act in between. */
module LaunchClaim {
  type Pid = nat
  type Nonce = nat

  datatype Document = Document(nonce: Nonce, pid: Pid, heartbeatAt: nat)

  /** The claim file; Unreadable stands for contents without a readable owner. */
  datatype ClaimFile = Absent | Carries(doc: Document) | Unreadable

  // ----- when a claim may be reclaimed -----

  datatype Liveness = Alive | Gone | Indeterminate

  function Reclaimable(liveness: Liveness, ageMs: nat, staleAfterMs: nat): bool {
    match liveness
    case Alive => false
    case Gone => ageMs >= staleAfterMs
    case Indeterminate => false
  }

  function Age(doc: Document, now: nat): nat {
    if now >= doc.heartbeatAt then now - doc.heartbeatAt else 0
  }

  // ----- the state -----

  datatype Heartbeat = Resting | Verified | Stopped

  /** What a live process is doing with claims. */
  datatype Activity =
    | Idle
    | Reading(doc: Document)                    // has read the claim in its way, about to probe that claim's owner
    | Judging                                   // found a stale claim of a dead owner, about to rename it away
    | Adopting(nonce: Nonce, parent: Pid)       // found the claim it was given, about to publish itself as owner
    | Holding(nonce: Nonce, beat: Heartbeat)    // acquired or adopted the claim
    | HandedOff(nonce: Nonce)                   // stopped its heartbeat; the claim is left for a child
    | Cleared(nonce: Nonce)                     // cleared the claim; the handle is still there to clear or drop again
    | Removing(nonce: Nonce, parked: ClaimFile) // moved the claim file aside, about to look whose it is

  datatype Offer = Offer(nonce: Nonce, parent: Pid)

  datatype State = State(
    file: ClaimFile,
    procs: map<Pid, Activity>,  // the live processes
    offers: map<Pid, Offer>,    // the identity a child was given in its environment
    now: nat,
    born: set<Pid>,             // every process there has been
    used: set<Nonce>,           // every nonce there has been
    given: set<Offer>,          // every handoff so far
    adopted: set<Offer>)        // every handoff that a child has adopted

  ghost predicate Init(s: State) {
    && s.procs == map[] && s.offers == map[] && s.given == {} && s.adopted == {}
    && (s.file.Carries? ==> s.file.doc.pid in s.born && s.file.doc.nonce in s.used)
  }

  predicate Holds(s: State, p: Pid, nonce: Nonce) {
    p in s.procs && s.procs[p].Holding? && s.procs[p].nonce == nonce
  }

  predicate IsHolder(s: State, p: Pid) {
    p in s.procs && s.procs[p].Holding?
  }

  /** At most one live process holds the claim. */
  ghost predicate Exclusive(s: State) {
    forall p, q | IsHolder(s, p) && IsHolder(s, q) :: p == q
  }

  // ----- the steps -----

  datatype Step =
    | Tick(later: nat)
    | Start(p: Pid)
    | Die(p: Pid)
    | Install(p: Pid, nonce: Nonce)             // exclusive creation of an absent claim file
    | Read(p: Pid)                              // the claim file is there: read it
    | Judge(p: Pid, liveness: Liveness)         // what was read may be reclaimed
    | Leave(p: Pid)                             // it may not: give up
    | Reclaim(p: Pid)                           // rename away whatever is there
    | BeatVerify(p: Pid)
    | BeatPublish(p: Pid)
    | Handoff(p: Pid)
    | SpawnChild(p: Pid, child: Pid)
    | Forget(p: Pid)
    | AdoptVerify(p: Pid)
    | AdoptRefuse(p: Pid)
    | AdoptPublish(p: Pid)
    | Park(p: Pid)
    | Settle(p: Pid)

  predicate Does(s: State, p: Pid, activity: Activity) {
    p in s.procs && s.procs[p] == activity
  }

  /** Idle, and done with the claim its environment offered. */
  predicate Free(s: State, p: Pid) {
    Does(s, p, Idle) && p !in s.offers
  }

  /** A claim handle that can be cleared or dropped: its heartbeat thread is joined first, and a handle that was handed
      off or already cleared removes again. */
  predicate HasHandle(s: State, p: Pid) {
    && p in s.procs
    && ((s.procs[p].Holding? && s.procs[p].beat != Verified) || s.procs[p].HandedOff? || s.procs[p].Cleared?)
  }

  /** Whether the step can be taken. */
  predicate Enabled(s: State, step: Step, staleAfterMs: nat) {
    match step
    case Tick(later) => later >= s.now
    case Start(p) => p !in s.born
    case Die(p) => p in s.procs
    case Install(p, nonce) => Free(s, p) && s.file.Absent? && nonce !in s.used
    case Read(p) => Free(s, p) && s.file.Carries?
    case Judge(p, liveness) =>
      && p in s.procs && s.procs[p].Reading?
      && (liveness == Gone ==> s.procs[p].doc.pid !in s.procs)
      && Reclaimable(liveness, Age(s.procs[p].doc, s.now), staleAfterMs)
    case Leave(p) => p in s.procs && s.procs[p].Reading?
    case Reclaim(p) => Does(s, p, Judging)
    case BeatVerify(p) => IsHolder(s, p) && s.procs[p].beat == Resting
    case BeatPublish(p) => IsHolder(s, p) && s.procs[p].beat == Verified
    case Handoff(p) => HasHandle(s, p) && s.procs[p].Holding?
    case SpawnChild(p, child) => p in s.procs && s.procs[p].HandedOff? && child !in s.born
    case Forget(p) => p in s.procs && (s.procs[p].HandedOff? || s.procs[p].Cleared?)
    case AdoptVerify(p) => Does(s, p, Idle) && p in s.offers && FileIsOffered(s, p)
    case AdoptRefuse(p) => Does(s, p, Idle) && p in s.offers && !FileIsOffered(s, p)
    case AdoptPublish(p) => p in s.procs && s.procs[p].Adopting?
    case Park(p) => HasHandle(s, p)
    case Settle(p) => p in s.procs && s.procs[p].Removing?
  }

  /** The claim on disk is the very one the parent declared: its nonce, its pid. */
  predicate FileIsOffered(s: State, p: Pid)
    requires p in s.offers
  {
    s.file.Carries? && s.file.doc.nonce == s.offers[p].nonce && s.file.doc.pid == s.offers[p].parent
  }

  function Becomes(s: State, p: Pid, activity: Activity): State {
    s.(procs := s.procs[p := activity])
  }

  function Published(s: State, p: Pid, nonce: Nonce): State {
    Becomes(s, p, Holding(nonce, Resting)).(file := Carries(Document(nonce, p, s.now)))
  }

  /** The state after the step. */
  function After(s: State, step: Step, staleAfterMs: nat): State
    requires Enabled(s, step, staleAfterMs)
  {
    match step
    case Tick(later) => s.(now := later)
    case Start(p) => Becomes(s, p, Idle).(born := s.born + {p})
    case Die(p) => s.(procs := s.procs - {p}, offers := s.offers - {p})
    case Install(p, nonce) => Published(s, p, nonce).(used := s.used + {nonce})
    case Read(p) => Becomes(s, p, Reading(s.file.doc))
    case Judge(p, liveness) => Becomes(s, p, Judging)
    case Leave(p) => Becomes(s, p, Idle)
    case Reclaim(p) => Becomes(s, p, Idle).(file := Absent)
    case BeatVerify(p) =>
      var mine := s.file.Carries? && s.file.doc.nonce == s.procs[p].nonce;
      Becomes(s, p, s.procs[p].(beat := if mine then Verified else Stopped))
    case BeatPublish(p) => Published(s, p, s.procs[p].nonce)
    case Handoff(p) => Becomes(s, p, HandedOff(s.procs[p].nonce)).(given := s.given + {Offer(s.procs[p].nonce, p)})
    case SpawnChild(p, child) =>
      Becomes(s, child, Idle).(offers := s.offers[child := Offer(s.procs[p].nonce, p)], born := s.born + {child})
    case Forget(p) => Becomes(s, p, Idle)
    case AdoptVerify(p) => Becomes(s, p, Adopting(s.offers[p].nonce, s.offers[p].parent)).(offers := s.offers - {p})
    case AdoptRefuse(p) => s.(offers := s.offers - {p})
    case AdoptPublish(p) =>
      Published(s, p, s.procs[p].nonce).(adopted := s.adopted + {Offer(s.procs[p].nonce, s.procs[p].parent)})
    case Park(p) =>
      Becomes(s, p, if s.file.Absent? then Cleared(s.procs[p].nonce) else Removing(s.procs[p].nonce, s.file)).(file := Absent)
    case Settle(p) =>
      Becomes(s, p, Cleared(s.procs[p].nonce)).(file := if OwnParked(s.procs[p]) then s.file else s.procs[p].parked)
  }

  predicate OwnParked(activity: Activity)
    requires activity.Removing?
  {
    activity.parked.Carries? && activity.parked.doc.nonce == activity.nonce
  }

  // ----- acts whose premise can have gone stale -----

  /** A process that moves or overwrites the claim file after reading something else. */
  ghost predicate TouchesClaim(step: Step) {
    step.Reclaim? || step.Park? || step.AdoptPublish?
  }

  /** What a careful caller would make sure of at the second half of a read-then-act pair: what it read still holds. */
  ghost predicate Disciplined(s: State, step: Step) {
    match step
    case Reclaim(p) =>
      s.file.Carries? ==> s.file.doc.pid !in s.procs
    case AdoptPublish(p) =>
      p in s.procs && s.procs[p].Adopting? ==>
        s.file.Carries? && s.file.doc.nonce == s.procs[p].nonce && s.file.doc.pid == s.procs[p].parent
    case Park(p) =>
      HasHandle(s, p) && !s.file.Absent? ==>
        CarriesNonce(s, s.procs[p].nonce) && (s.file.doc.pid == p || s.file.doc.pid !in s.procs)
    case _ => true
  }

  predicate CarriesNonce(s: State, nonce: Nonce) {
    s.file.Carries? && s.file.doc.nonce == nonce
  }

  /** No process but `p` holds the claim. */
  ghost predicate NoRival(s: State, p: Pid) {
    forall q | IsHolder(s, q) :: q == p
  }

  /** No rival holds the claim, and what a removal moves aside carries the remover's own nonce. */
  ghost predicate Timely(s: State, step: Step) {
    match step
    case Reclaim(p) => NoRival(s, p)
    case AdoptPublish(p) => NoRival(s, p)
    case Park(p) => NoRival(s, p) && (HasHandle(s, p) ==> s.file.Absent? || CarriesNonce(s, s.procs[p].nonce))
    case _ => true
  }

  // ----- what timely steps keep -----

  /** A holder's nonce and pid are in the claim file. */
  ghost predicate HoldersAreNamed(s: State) {
    forall p | IsHolder(s, p) :: CarriesNonce(s, s.procs[p].nonce) && s.file.doc.pid == p
  }

  ghost predicate ParkedAreOwn(s: State) {
    forall p | p in s.procs && s.procs[p].Removing? :: OwnParked(s.procs[p])
  }

  function NonceOf(activity: Activity): set<Nonce> {
    match activity
    case Idle => {}
    case Reading(_) => {}
    case Judging => {}
    case Adopting(nonce, _) => {nonce}
    case Holding(nonce, _) => {nonce}
    case HandedOff(nonce) => {nonce}
    case Cleared(nonce) => {nonce}
    case Removing(nonce, _) => {nonce}
  }

  ghost predicate Registered(s: State) {
    && (forall p | p in s.procs :: p in s.born && NonceOf(s.procs[p]) <= s.used)
    && (forall o | o in s.given :: o.nonce in s.used && o.parent in s.born)
  }

  ghost predicate OffersWereGiven(s: State) {
    forall p | p in s.offers :: Does(s, p, Idle) && s.offers[p] in s.given
  }

  /** Who is on the way to a handed-off claim got it from a real handoff. */
  ghost predicate AdoptersWereGiven(s: State) {
    && (forall p | p in s.procs && s.procs[p].Adopting? :: Offer(s.procs[p].nonce, s.procs[p].parent) in s.given)
    && (forall p | p in s.procs && s.procs[p].HandedOff? :: Offer(s.procs[p].nonce, p) in s.given)
  }

  /** Who gave a nonce away neither holds it nor is on the way to it. */
  ghost predicate GiversLetGo(s: State) {
    forall o | o in s.given && o.parent in s.procs ::
      && !Holds(s, o.parent, o.nonce)
      && (s.procs[o.parent].Adopting? ==> s.procs[o.parent].nonce != o.nonce)
      && (o.parent in s.offers ==> s.offers[o.parent].nonce != o.nonce)
  }

  /** An adopted handoff is no longer in the file. */
  ghost predicate AdoptedOnce(s: State) {
    && s.adopted <= s.given
    && (s.file.Carries? ==> Offer(s.file.doc.nonce, s.file.doc.pid) !in s.adopted)
    && (s.file.Carries? ==> s.file.doc.nonce in s.used)
  }

  /** Behind an unreadable claim nobody gets to do anything. */
  ghost predicate UnreadableBlocks(s: State) {
    s.file.Unreadable? ==> forall p | p in s.procs :: s.procs[p].Idle?
  }

  /** What every step keeps, late or not: pids, nonces and handoffs are registered. */
  ghost predicate Known(s: State) {
    Registered(s) && OffersWereGiven(s) && AdoptersWereGiven(s)
  }

  ghost predicate Core(s: State) {
    HoldersAreNamed(s) && UnreadableBlocks(s) && Known(s) && GiversLetGo(s) && AdoptedOnce(s)
  }

  ghost predicate Inv(s: State) {
    Core(s) && ParkedAreOwn(s)
  }

  /** The step neither lapses nor puts a foreign claim back. */
  ghost predicate Clean(s: State, step: Step) {
    Timely(s, step) && (step.Settle? && step.p in s.procs && s.procs[step.p].Removing? ==> OwnParked(s.procs[step.p]))
  }

  lemma StepKeepsNames(s: State, step: Step, staleAfterMs: nat)
    requires Core(s) && Enabled(s, step, staleAfterMs) && Clean(s, step)
    ensures HoldersAreNamed(After(s, step, staleAfterMs)) && UnreadableBlocks(After(s, step, staleAfterMs))
  {
    var t := After(s, step, staleAfterMs);
    forall q | IsHolder(t, q) ensures CarriesNonce(t, t.procs[q].nonce) && t.file.doc.pid == q {
      assert IsHolder(s, q) || step.Install? || step.AdoptPublish?;
    }
  }

  lemma StepKeepsRegister(s: State, step: Step, staleAfterMs: nat)
    requires Known(s) && Enabled(s, step, staleAfterMs)
    ensures Registered(After(s, step, staleAfterMs))
  {
  }

  lemma StepKeepsOffers(s: State, step: Step, staleAfterMs: nat)
    requires Known(s) && Enabled(s, step, staleAfterMs)
    ensures OffersWereGiven(After(s, step, staleAfterMs))
  {
  }

  lemma StepKeepsAdopters(s: State, step: Step, staleAfterMs: nat)
    requires Known(s) && Enabled(s, step, staleAfterMs)
    ensures AdoptersWereGiven(After(s, step, staleAfterMs))
  {
  }

  lemma StepKeepsKnown(s: State, step: Step, staleAfterMs: nat)
    requires Known(s) && Enabled(s, step, staleAfterMs)
    ensures Known(After(s, step, staleAfterMs))
  {
    StepKeepsRegister(s, step, staleAfterMs);
    StepKeepsOffers(s, step, staleAfterMs);
    StepKeepsAdopters(s, step, staleAfterMs);
  }

  lemma StepKeepsGivers(s: State, step: Step, staleAfterMs: nat)
    requires Core(s) && Enabled(s, step, staleAfterMs) && Clean(s, step)
    ensures GiversLetGo(After(s, step, staleAfterMs))
  {
  }

  lemma StepKeepsAdoptions(s: State, step: Step, staleAfterMs: nat)
    requires Core(s) && Enabled(s, step, staleAfterMs) && Clean(s, step)
    ensures AdoptedOnce(After(s, step, staleAfterMs))
  {
  }

  lemma StepKeepsParked(s: State, step: Step, staleAfterMs: nat)
    requires ParkedAreOwn(s) && Enabled(s, step, staleAfterMs) && Timely(s, step)
    ensures ParkedAreOwn(After(s, step, staleAfterMs))
  {
  }

  lemma StepKeepsCore(s: State, step: Step, staleAfterMs: nat)
    requires Core(s) && Enabled(s, step, staleAfterMs) && Clean(s, step)
    ensures Core(After(s, step, staleAfterMs))
  {
    StepKeepsNames(s, step, staleAfterMs);
    StepKeepsKnown(s, step, staleAfterMs);
    StepKeepsGivers(s, step, staleAfterMs);
    StepKeepsAdoptions(s, step, staleAfterMs);
  }

  lemma StepKeepsInv(s: State, step: Step, staleAfterMs: nat)
    requires Inv(s) && Enabled(s, step, staleAfterMs) && Timely(s, step)
    ensures Inv(After(s, step, staleAfterMs))
  {
    StepKeepsCore(s, step, staleAfterMs);
    StepKeepsParked(s, step, staleAfterMs);
  }

  /** What a careful caller does is timely. */
  lemma DisciplineIsTimely(s: State, step: Step, staleAfterMs: nat)
    requires Core(s) && Enabled(s, step, staleAfterMs) && Disciplined(s, step)
    ensures Timely(s, step)
  {
    if step.AdoptPublish? {
      assert Offer(s.procs[step.p].nonce, s.procs[step.p].parent) in s.given;
    }
  }
}
