/** What every run of the writer lease keeps, and exactly when at most one process runs writers. */
module LeaseSafety {
  import opened ClaimFile
  import opened LeaseProtocol
  import opened Wrappers

  // ------------------------------------------------------------------ one process, whatever the lock and the clock do

  /** The release has begun. */
  predicate Releases(shutdown: Shutdown) {
    shutdown.ReleasingLease? || shutdown.ReadingOwn? || shutdown.Unlinking? || shutdown.ShutDown?
  }

  predicate StoppedBy(pr: Process) {
    && (pr.shutdown.StoppingHooks? ==> !pr.scheduler)
    && (pr.shutdown.StoppingWatcher? ==> !pr.scheduler && !pr.hooks)
    && (Releases(pr.shutdown) ==> !WritersOn(pr))
  }

  predicate WithoutToken(step: Step) {
    step.MakingDir? || step.Acquiring? || step.Acquired? || step.GivingBack? || step.UnlinkingBack?
  }

  predicate ProcInv(pr: Process) {
    && (pr.halted <==> !pr.shutdown.NotBegun?)
    && (pr.awaited <==> pr.halted && !pr.step.NotRunning?)
    && (pr.awaited ==> pr.shutdown.Halting?)
    && StoppedBy(pr)
    && (WithoutToken(pr.step) ==> pr.token.None? && !WritersOn(pr))
    && (pr.step.GivingBack? || pr.step.UnlinkingBack? ==> pr.halted)
    && (pr.step.StartingWatcher? || pr.step.Touching? ==> pr.token.Some?)
    && (pr.step.Checking? ==> pr.token == Some(pr.step.claim))
    && (pr.step.LosingHooks? ==> pr.token.None? && !pr.scheduler)
    && (pr.step.LosingWatcher? ==> pr.token.None? && !pr.scheduler && !pr.hooks)
    && (pr.token.None? && !pr.step.LosingHooks? && !pr.step.LosingWatcher? ==> !WritersOn(pr))
    && (pr.shutdown.ReadingOwn? || pr.shutdown.Unlinking? || pr.shutdown.ShutDown? ==> pr.token.None?)
  }

  lemma StepKeepsInv(l: Lock, now: int, pr: Process, works: bool)
    requires ProcInv(pr)
    ensures ProcInv(StepAfter(l, now, pr, works))
  {
  }

  lemma ShutdownKeepsInv(l: Lock, pr: Process, works: bool)
    requires ProcInv(pr)
    ensures ProcInv(ShutdownAfter(l, pr, works))
  {
  }

  lemma ProcKeepsInv(w: World, l: Lock, now: int, pr: Process, m: Move)
    requires ProcInv(pr)
    ensures ProcInv(ProcAfter(w, l, now, pr, m))
  {
    match m
    case Tick =>
    case StepOk => StepKeepsInv(l, now, pr, true);
    case StepFail => StepKeepsInv(l, now, pr, false);
    case ShutOk => ShutdownKeepsInv(l, pr, true);
    case ShutFail => ShutdownKeepsInv(l, pr, false);
  }

  lemma {:induction false} EveryProcessKeepsInv(w: World, s: Machine, es: seq<Event>)
    requires forall p | 0 <= p < |s.procs| :: ProcInv(s.procs[p])
    ensures var s' := Run(w, s, es); |s'.procs| == |s.procs| && forall p | 0 <= p < |s'.procs| :: ProcInv(s'.procs[p])
    decreases |es|
  {
    if es != [] {
      var e := es[0];
      if e.Act? && e.p < |s.procs| {
        ProcKeepsInv(w, s.lock, s.clock, s.procs[e.p], e.move);
      }
      var s' := Apply(w, s, e);
      assert forall p | 0 <= p < |s'.procs| :: ProcInv(s'.procs[p]);
      EveryProcessKeepsInv(w, s', es[1..]);
    }
  }

  /**
   * In every run of every world: a process asking for the lease, or holding one it has not led with
   * yet, has all three writers stopped; they stop in order, and the release begins only after them.
   */
  lemma NeverReacquiresBeforeStopping(w: World, left: bool, es: seq<Event>, p: nat)
    requires p < w.contenders
    ensures |Run(w, Boot(w, left), es).procs| == w.contenders
    ensures var pr := Run(w, Boot(w, left), es).procs[p];
            && (WithoutToken(pr.step) ==> !WritersOn(pr))
            && (pr.shutdown.StoppingHooks? ==> !pr.scheduler)
            && (pr.shutdown.StoppingWatcher? ==> !pr.scheduler && !pr.hooks)
            && (Releases(pr.shutdown) ==> !WritersOn(pr))
  {
    EveryProcessKeepsInv(w, Boot(w, left), es);
  }

  ghost predicate AtMostOneWriter(s: Machine) {
    forall p, q | 0 <= p < |s.procs| && 0 <= q < |s.procs| && WritersOn(s.procs[p]) && WritersOn(s.procs[q]) :: p == q
  }

  /** Clock readings a process carries are past ones, and its touches go forward. */
  predicate Clocked(clock: int, pr: Process) {
    && pr.lastTouch <= clock
    && (pr.step.Acquiring? ==> pr.step.at <= clock)
    && (pr.step.Touching? ==> pr.lastTouch <= pr.step.at <= clock)
  }

  lemma StaysClocked(w: World, l: Lock, clock: int, pr: Process, m: Move)
    requires Clocked(clock, pr)
    ensures Clocked(clock, ProcAfter(w, l, clock, pr, m))
  {
  }

  predicate Recent(clock: int, pr: Process) {
    clock - pr.lastTouch <= WRITER_LEASE_STALE_MS
  }

  // --------------------------------------------------------------- any number of processes, no fresh lock renamed away

  /** The lock is its own until it is done with it. */
  predicate Owner(pr: Process) {
    Obliged(pr) || Releasing(pr)
  }

  /** The lock is there and no older than the owner's last touch. */
  predicate Covered(l: Lock, pr: Process) {
    l.file.Some? && l.file.value.mtime >= pr.lastTouch
  }

  /** The token its lock carries, while the process still knows it. */
  function OwnToken(pr: Process): Option<nat> {
    if pr.token.Some? then pr.token
    else if pr.step.Acquired? || pr.step.GivingBack? then Some(pr.step.claim)
    else if pr.shutdown.ReadingOwn? then Some(pr.shutdown.claim)
    else None
  }

  /** The lock is there, carries the owner's token, and is no older than its last touch. */
  predicate Owns(l: Lock, pr: Process) {
    Covered(l, pr) && (OwnToken(pr).Some? ==> HasToken(l, OwnToken(pr).value))
  }

  /** It has found its lease lost. */
  predicate Losing(pr: Process) {
    pr.step.LosingHooks? || pr.step.LosingWatcher?
  }

  ghost predicate ManyInv(s: Machine) {
    && (forall p | 0 <= p < |s.procs| :: ProcInv(s.procs[p]) && Clocked(s.clock, s.procs[p]) && !Losing(s.procs[p]))
    && (forall p | 0 <= p < |s.procs| && Owner(s.procs[p]) :: Owns(s.lock, s.procs[p]) && Recent(s.clock, s.procs[p]))
    && (forall p, q | 0 <= p < |s.procs| && 0 <= q < |s.procs| && Owner(s.procs[p]) && Owner(s.procs[q]) :: p == q)
  }

  predicate Undisturbed(w: World) {
    w.touchesInTime && w.releasesInTime && !w.freshMayBeParked
  }

  /** An owner's own move keeps the lock its own, or ends its business with it. */
  lemma OwnerMoves(w: World, l: Lock, clock: int, pr: Process, m: Move)
    requires ProcInv(pr) && Clocked(clock, pr) && Owner(pr) && Owns(l, pr) && Recent(clock, pr)
    ensures var l', pr' := LockAfter(w, l, clock, pr, m), ProcAfter(w, l, clock, pr, m);
            Owner(pr') ==> Owns(l', pr') && Recent(clock, pr')
  {
  }

  /** Another process's move takes nothing from a covered owner, and makes no second one. */
  lemma OthersMove(w: World, l: Lock, clock: int, pr: Process, m: Move, owner: Process)
    requires Undisturbed(w) && ProcInv(pr) && Clocked(clock, pr) && !Owner(pr) && Owns(l, owner) && Recent(clock, owner)
    ensures Owns(LockAfter(w, l, clock, pr, m), owner) && !Owner(ProcAfter(w, l, clock, pr, m))
  {
  }

  /** A process becomes an owner only by creating the lock. */
  lemma BecomesOwner(w: World, l: Lock, clock: int, pr: Process, m: Move)
    requires ProcInv(pr) && !Owner(pr) && Owner(ProcAfter(w, l, clock, pr, m))
    ensures l.file.None?
    ensures var l', pr' := LockAfter(w, l, clock, pr, m), ProcAfter(w, l, clock, pr, m);
            Owns(l', pr') && Recent(clock, pr')
  {
  }

  /** Whoever asks for its lock finds it. */
  lemma NeverLoses(w: World, l: Lock, clock: int, pr: Process, m: Move)
    requires ProcInv(pr) && !Losing(pr) && (Owner(pr) ==> Owns(l, pr))
    ensures !Losing(ProcAfter(w, l, clock, pr, m))
  {
  }

  lemma ActKeepsMany(w: World, s: Machine, p: nat, m: Move)
    requires Undisturbed(w) && ManyInv(s) && p < |s.procs|
    ensures ManyInv(Apply(w, s, Act(p, m)))
  {
    var pr := s.procs[p];
    if !pr.crashed {
      var s' := Apply(w, s, Act(p, m));
      ProcKeepsInv(w, s.lock, s.clock, pr, m);
      StaysClocked(w, s.lock, s.clock, pr, m);
      NeverLoses(w, s.lock, s.clock, pr, m);
      if Owner(pr) {
        OwnerMoves(w, s.lock, s.clock, pr, m);
      } else {
        if Owner(s'.procs[p]) {
          BecomesOwner(w, s.lock, s.clock, pr, m);
        }
        forall q | 0 <= q < |s.procs| && Owner(s.procs[q])
          ensures Owns(s'.lock, s.procs[q]) && !Owner(s'.procs[p])
        {
          OthersMove(w, s.lock, s.clock, pr, m, s.procs[q]);
        }
      }
      assert forall q | 0 <= q < |s.procs| && q != p :: s'.procs[q] == s.procs[q];
    }
  }

  lemma ApplyKeepsMany(w: World, s: Machine, e: Event)
    requires Undisturbed(w) && ManyInv(s)
    ensures ManyInv(Apply(w, s, e))
  {
    match e
    case Act(p, m) =>
      if p < |s.procs| {
        ActKeepsMany(w, s, p, m);
      }
    case Crash(p) =>
    case Wait(ms) =>
  }

  lemma {:induction false} RunKeepsMany(w: World, s: Machine, es: seq<Event>)
    requires Undisturbed(w) && ManyInv(s)
    ensures ManyInv(Run(w, s, es))
    decreases |es|
  {
    if es != [] {
      ApplyKeepsMany(w, s, es[0]);
      RunKeepsMany(w, Apply(w, s, es[0]), es[1..]);
    }
  }

  /** In such a world the lock carries the token of whoever leads, and no leader ever finds its lease lost. */
  lemma LeadersKeepTheLock(w: World, left: bool, es: seq<Event>, p: nat)
    requires Undisturbed(w) && p < w.contenders
    ensures var s := Run(w, Boot(w, left), es);
            && |s.procs| == w.contenders
            && (s.procs[p].token.Some? ==> HasToken(s.lock, s.procs[p].token.value))
            && !Losing(s.procs[p])
  {
    EveryProcessKeepsInv(w, Boot(w, left), es);
    RunKeepsMany(w, Boot(w, left), es);
  }

  // ----------------------------------------------------------- two processes, their file operations anyhow interleaved

  /** It never leads again. */
  predicate Out(pr: Process) {
    pr.halted && !Obliged(pr)
  }

  function AsideOf(pr: Process): Option<File> {
    if pr.step.Acquiring? then Aside(pr.step.op) else None
  }

  /**
   * What keeps the other process away: a lock as recent as its touches, the same set aside to be put
   * back, or the other's end.
   */
  predicate Guarded(w: World, l: Lock, pr: Process, other: Process) {
    || Covered(l, pr)
    || (l.file.None? && !w.parkedMayBeLost && AsideOf(other).Some? && AsideOf(other).value.mtime >= pr.lastTouch)
    || Out(other)
  }

  predicate OneOfTwo(w: World, clock: int, l: Lock, pr: Process, other: Process) {
    Obliged(pr) ==> Guarded(w, l, pr, other) && Recent(clock, pr) && !Obliged(other)
  }

  predicate PairInv(w: World, clock: int, l: Lock, a: Process, b: Process) {
    && ProcInv(a) && ProcInv(b) && Clocked(clock, a) && Clocked(clock, b)
    && OneOfTwo(w, clock, l, a, b) && OneOfTwo(w, clock, l, b, a)
  }

  predicate PutsBack(w: World) {
    w.touchesInTime && (w.freshMayBeParked ==> !w.parkedMayBeLost)
  }

  lemma ActorOfTwo(w: World, clock: int, l: Lock, pr: Process, other: Process, m: Move)
    requires PutsBack(w) && PairInv(w, clock, l, pr, other)
    ensures var l', pr' := LockAfter(w, l, clock, pr, m), ProcAfter(w, l, clock, pr, m);
            OneOfTwo(w, clock, l', pr', other)
  {
  }

  lemma OtherOfTwo(w: World, clock: int, l: Lock, pr: Process, other: Process, m: Move)
    requires PutsBack(w) && PairInv(w, clock, l, pr, other)
    ensures var l', pr' := LockAfter(w, l, clock, pr, m), ProcAfter(w, l, clock, pr, m);
            OneOfTwo(w, clock, l', other, pr')
  {
  }

  lemma PairMoves(w: World, clock: int, l: Lock, pr: Process, other: Process, m: Move)
    requires PutsBack(w) && PairInv(w, clock, l, pr, other)
    ensures PairInv(w, clock, LockAfter(w, l, clock, pr, m), ProcAfter(w, l, clock, pr, m), other)
  {
    ProcKeepsInv(w, l, clock, pr, m);
    StaysClocked(w, l, clock, pr, m);
    ActorOfTwo(w, clock, l, pr, other, m);
    OtherOfTwo(w, clock, l, pr, other, m);
  }

  ghost predicate TwoInv(w: World, s: Machine) {
    |s.procs| == 2 && PairInv(w, s.clock, s.lock, s.procs[0], s.procs[1])
  }

  lemma ApplyKeepsTwo(w: World, s: Machine, e: Event)
    requires PutsBack(w) && TwoInv(w, s)
    ensures TwoInv(w, Apply(w, s, e))
  {
    match e
    case Act(p, m) =>
      if p < 2 && !s.procs[p].crashed {
        PairMoves(w, s.clock, s.lock, s.procs[p], s.procs[1 - p], m);
      }
    case Crash(p) =>
    case Wait(ms) =>
      if InTime(w, s, ms) {
        LaterPair(w, s.clock, ms, s.lock, s.procs[0], s.procs[1]);
      }
  }

  lemma LaterPair(w: World, clock: nat, ms: nat, l: Lock, a: Process, b: Process)
    requires PairInv(w, clock, l, a, b)
    requires Obliged(a) ==> Recent(clock + ms, a)
    requires Obliged(b) ==> Recent(clock + ms, b)
    ensures PairInv(w, clock + ms, l, a, b)
  {
  }

  lemma {:induction false} RunKeepsTwo(w: World, s: Machine, es: seq<Event>)
    requires PutsBack(w) && TwoInv(w, s)
    ensures TwoInv(w, Run(w, s, es))
    decreases |es|
  {
    if es != [] {
      ApplyKeepsTwo(w, s, es[0]);
      RunKeepsTwo(w, Apply(w, s, es[0]), es[1..]);
    }
  }
}
