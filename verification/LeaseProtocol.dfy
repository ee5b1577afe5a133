/**
 * The writer lease: any number of processes, one lock file, one clock. A process has two threads of
 * control that interleave: `step`, of which one runs at a time, and the shutdown sequence. Every file
 * operation is a step of its own and may fail, and any process may crash between two of them.
 */
module LeaseProtocol {
  import opened ClaimFile
  import opened Wrappers

  const WRITER_LEASE_RENEW_MS := 30_000
  const WRITER_LEASE_STALE_MS := 4 * WRITER_LEASE_RENEW_MS

  /**
   * Where `step` stands. Ages are reckoned from the clock read when acquireClaim began, touches set the
   * clock read before them.
   */
  datatype Step =
    | NotRunning
    | MakingDir
    | Acquiring(at: int, op: Taking)
    | Acquired(claim: nat)
    /** releaseClaim of a lease won too late: its read, then its unlink. */
    | GivingBack(claim: nat)
    | UnlinkingBack
    | StartingWatcher
    | Checking(claim: nat)
    | Touching(at: int)
    | LosingHooks
    | LosingWatcher
    | Logging

  /** The shutdown steps, in their order; the release is a read and then an unlink. */
  datatype Shutdown =
    | NotBegun
    | Halting
    | StoppingScheduler
    | StoppingHooks
    | StoppingWatcher
    | ReleasingLease
    | ReadingOwn(claim: nat)
    | Unlinking
    | ShutDown

  /** `awaited` says that the step halt waits for is still running. */
  datatype Process = Process(
    token: Option<nat>, halted: bool, step: Step, shutdown: Shutdown, awaited: bool,
    hooks: bool, scheduler: bool, watcher: bool, lastTouch: int, crashed: bool)

  const STARTED := Process(None, false, NotRunning, NotBegun, false, false, false, false, 0, false)

  const DEAD := Process(None, true, NotRunning, ShutDown, false, false, false, false, 0, true)

  predicate WritersOn(pr: Process) {
    pr.hooks || pr.scheduler || pr.watcher
  }

  /** It leads, or has just taken the lease and is about to lead. */
  predicate Leads(pr: Process) {
    pr.token.Some? || (pr.step.Acquired? && !pr.halted)
  }

  /** The lock is its business: it leads, or a writer of its own still runs. */
  predicate Obliged(pr: Process) {
    Leads(pr) || WritersOn(pr)
  }

  /** On its way to remove the lock. */
  predicate Releasing(pr: Process) {
    || (pr.step.Acquired? && pr.halted) || pr.step.GivingBack? || pr.step.UnlinkingBack?
    || pr.shutdown.ReadingOwn? || pr.shutdown.Unlinking?
  }

  /** What a run may show. */
  datatype World = World(
    contenders: nat,
    /** No process that leads or has a writer on lets its last touch of the lock grow stale. */
    touchesInTime: bool,
    /** Nor does one that is releasing. */
    releasesInTime: bool,
    /** A lock can change hands between the look at its age and the rename. */
    freshMayBeParked: bool,
    /** An operation on the file renamed away can fail, and the file is then lost. */
    parkedMayBeLost: bool)

  datatype Move = Tick | StepOk | StepFail | ShutOk | ShutFail

  predicate IsStale(f: File, at: int) {
    at - f.mtime > WRITER_LEASE_STALE_MS
  }

  predicate SeesStale(l: Lock, at: int, op: Taking) {
    AgeOf(l, op).Some? && IsStale(AgeOf(l, op).value, at)
  }

  /** Whether the world lets the operation come out so now; otherwise it waits. */
  predicate MayStep(w: World, l: Lock, pr: Process, works: bool) {
    pr.step.Acquiring? ==>
      && (works && pr.step.op.Parking? && l.file.Some? ==> w.freshMayBeParked || IsStale(l.file.value, pr.step.at))
      && (!works && Aside(pr.step.op).Some? ==> w.parkedMayBeLost)
  }

  function LockAfter(w: World, l: Lock, now: int, pr: Process, m: Move): Lock {
    if m.StepOk? && MayStep(w, l, pr, true) then
      match pr.step
      case Acquiring(_, op) => LockAfterTaking(l, op, now)
      // utimes touches the file whoever holds it by then
      case Touching(at) => if l.file.Some? then l.(file := Some(l.file.value.(mtime := at))) else l
      case UnlinkingBack => l.(file := None)
      case _ => l
    else if m.ShutOk? && pr.shutdown.Unlinking? then l.(file := None)
    else l
  }

  function ProcAfter(w: World, l: Lock, now: int, pr: Process, m: Move): Process {
    match m
    case Tick =>
      if !pr.step.NotRunning? || pr.halted then pr
      else pr.(step := if pr.token.None? then MakingDir else Checking(pr.token.value))
    case StepOk => if MayStep(w, l, pr, true) then StepAfter(l, now, pr, true) else pr
    case StepFail => if MayStep(w, l, pr, false) then StepAfter(l, now, pr, false) else pr
    case ShutOk => ShutdownAfter(l, pr, true)
    case ShutFail => ShutdownAfter(l, pr, false)
  }

  /** The claim is there and the process not halted: token, hooks and scheduler are set in one breath. */
  predicate BeginsToLead(pr: Process) {
    pr.step.Acquired? && !pr.halted
  }

  predicate Loses(l: Lock, pr: Process, works: bool) {
    pr.step.Checking? && works && !HasToken(l, pr.step.claim)
  }

  predicate Touches(l: Lock, pr: Process, works: bool) {
    pr.step.Touching? && works && l.file.Some?
  }

  /** What `step` does next; an operation that throws is reported and ends it. */
  function NextStep(l: Lock, now: int, pr: Process, works: bool): Step {
    match pr.step
    case NotRunning => NotRunning
    case MakingDir => if works then Acquiring(now, Creating) else NotRunning
    case Acquiring(at, op) =>
      if !works then NotRunning
      else (match Take(l, op, SeesStale(l, at, op))
            case Next(op') => Acquiring(at, op')
            case Got(claim) => Acquired(claim)
            case Refused => NotRunning)
    case Acquired(claim) => if pr.halted then GivingBack(claim) else StartingWatcher
    case GivingBack(claim) => if works && HasToken(l, claim) then UnlinkingBack else NotRunning
    case UnlinkingBack => NotRunning
    case StartingWatcher => Logging
    case Checking(claim) => if !works then NotRunning else if HasToken(l, claim) then Touching(now) else LosingHooks
    case Touching(_) => NotRunning
    case LosingHooks => LosingWatcher
    case LosingWatcher => Logging
    case Logging => NotRunning
  }

  function StepAfter(l: Lock, now: int, pr: Process, works: bool): Process {
    var next := NextStep(l, now, pr, works);
    pr.(step := next, awaited := pr.awaited && !next.NotRunning?,
        token := if BeginsToLead(pr) then Some(pr.step.claim) else if Loses(l, pr, works) then None else pr.token,
        hooks := (pr.hooks || BeginsToLead(pr)) && !pr.step.LosingHooks?,
        scheduler := (pr.scheduler || BeginsToLead(pr)) && !Loses(l, pr, works),
        watcher := (pr.watcher || pr.step.StartingWatcher?) && !pr.step.LosingWatcher?,
        lastTouch := if pr.step.Acquiring? && next.Acquired? then now
                     else if Touches(l, pr, works) then pr.step.at
                     else pr.lastTouch)
  }

  function NextShutdown(l: Lock, pr: Process, works: bool): Shutdown {
    match pr.shutdown
    case NotBegun => Halting
    case Halting => if pr.awaited then Halting else StoppingScheduler
    case StoppingScheduler => StoppingHooks
    case StoppingHooks => StoppingWatcher
    case StoppingWatcher => ReleasingLease
    case ReleasingLease => if pr.token.None? then ShutDown else ReadingOwn(pr.token.value)
    case ReadingOwn(claim) => if works && HasToken(l, claim) then Unlinking else ShutDown
    case Unlinking => ShutDown
    case ShutDown => ShutDown
  }

  function ShutdownAfter(l: Lock, pr: Process, works: bool): Process {
    pr.(shutdown := NextShutdown(l, pr, works),
        halted := true,
        awaited := if pr.shutdown.NotBegun? then !pr.step.NotRunning? else pr.awaited,
        scheduler := pr.scheduler && !pr.shutdown.StoppingScheduler?,
        hooks := pr.hooks && !pr.shutdown.StoppingHooks?,
        watcher := pr.watcher && !pr.shutdown.StoppingWatcher?,
        token := if pr.shutdown.ReleasingLease? then None else pr.token)
  }

  /** A crashed process leaves its lock behind; one that is started again is another process. */
  datatype Machine = Machine(clock: nat, lock: Lock, procs: seq<Process>)

  datatype Event = Act(p: nat, move: Move) | Crash(p: nat) | Wait(ms: nat)

  ghost predicate InTime(w: World, s: Machine, ms: nat) {
    forall p | 0 <= p < |s.procs| ::
      (w.touchesInTime && Obliged(s.procs[p])) || (w.releasesInTime && Releasing(s.procs[p])) ==>
        s.clock + ms - s.procs[p].lastTouch <= WRITER_LEASE_STALE_MS
  }

  ghost function Apply(w: World, s: Machine, e: Event): Machine {
    match e
    case Act(p, m) =>
      if p >= |s.procs| || s.procs[p].crashed then s
      else s.(lock := LockAfter(w, s.lock, s.clock, s.procs[p], m),
              procs := s.procs[p := ProcAfter(w, s.lock, s.clock, s.procs[p], m)])
    case Crash(p) => if p >= |s.procs| then s else s.(procs := s.procs[p := DEAD])
    case Wait(ms) => if InTime(w, s, ms) then s.(clock := s.clock + ms) else s
  }

  ghost function Run(w: World, s: Machine, es: seq<Event>): Machine
    decreases |es|
  {
    if es == [] then s else Run(w, Apply(w, s, es[0]), es[1..])
  }

  /** Every process is there from the start; `left` says that one that died before left its lock. */
  function Boot(w: World, left: bool): Machine {
    Machine(0, Lock(if left then Some(File(0, -WRITER_LEASE_STALE_MS - 1)) else None, 1),
            seq(w.contenders, _ => STARTED))
  }
}
