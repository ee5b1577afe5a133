/**
 * createWriterLease and the writers behind it as the source writes them: closure variables that
 * step, halt and release reassign, on a lock file no other process touches meanwhile. Every method
 * is a run of the process's moves in the step system.
 */
module StdioWriters {
  import opened ClaimFile
  import opened LeaseProtocol
  import opened LeaseSafety
  import opened Wrappers

  /** Which of a call's file operations work. */
  datatype Io = Io(
    mkdir: bool, create: bool, age: bool, park: bool, ageAgain: bool, createAgain: bool,
    read: bool, touch: bool, readOwn: bool, unlink: bool)

  datatype Timed = Timed(now: int, move: Move)

  /** Nothing is ruled out. */
  const ANY_WORLD := World(1, false, false, true, true)

  /** The lock file and one process after some of its moves. */
  ghost function Replay(l: Lock, pr: Process, moves: seq<Timed>): (Lock, Process)
    decreases |moves|
  {
    if moves == [] then (l, pr)
    else
      Replay(LockAfter(ANY_WORLD, l, moves[0].now, pr, moves[0].move),
             ProcAfter(ANY_WORLD, l, moves[0].now, pr, moves[0].move), moves[1..])
  }

  lemma {:induction false} ReplaySnoc(l: Lock, pr: Process, moves: seq<Timed>, m: Timed)
    ensures var (l', pr') := Replay(l, pr, moves);
            Replay(l, pr, moves + [m])
              == (LockAfter(ANY_WORLD, l', m.now, pr', m.move), ProcAfter(ANY_WORLD, l', m.now, pr', m.move))
    decreases |moves|
  {
    if moves == [] {
      assert [m][1..] == [];
    } else {
      assert (moves + [m])[1..] == moves[1..] + [m];
      ReplaySnoc(LockAfter(ANY_WORLD, l, moves[0].now, pr, moves[0].move),
                 ProcAfter(ANY_WORLD, l, moves[0].now, pr, moves[0].move), moves[1..], m);
    }
  }

  lemma {:induction false} ReplayKeepsInv(l: Lock, pr: Process, moves: seq<Timed>)
    requires ProcInv(pr)
    ensures ProcInv(Replay(l, pr, moves).1)
    decreases |moves|
  {
    if moves != [] {
      var m := moves[0];
      ProcKeepsInv(ANY_WORLD, l, m.now, pr, m.move);
      ReplayKeepsInv(LockAfter(ANY_WORLD, l, m.now, pr, m.move), ProcAfter(ANY_WORLD, l, m.now, pr, m.move),
                     moves[1..]);
    }
  }

  /** An undisturbed attempt succeeds over a free lock, or a stale one when every operation works. */
  predicate Wins(l: Lock, now: int, io: Io) {
    && io.create
    && (l.file.Some? ==> now - l.file.value.mtime > 120_000 && io.age && io.park && io.ageAgain && io.createAgain)
  }

  /** A stale lock renamed away is gone even when the attempt then fails. */
  function LockAfterAttempt(l: Lock, now: int, io: Io): Lock {
    if Wins(l, now, io) then Lock(Some(File(l.next, now)), l.next + 1)
    else if io.create && l.file.Some? && IsStale(l.file.value, now) && io.age && io.park then l.(file := None)
    else l
  }

  /** The same when the process was halted meanwhile: a claim it wins is unlinked, if that can be done. */
  function LockAfterHalt(l: Lock, now: int, io: Io): Lock {
    if Wins(l, now, io) && io.readOwn && io.unlink then Lock(None, l.next + 1) else LockAfterAttempt(l, now, io)
  }

  class Writers {
    var lock: Lock
    var token: Option<nat>
    var halted: bool
    var hooks: bool
    var scheduler: bool
    var watcher: bool

    ghost const firstLock: Lock
    ghost var step: Step
    ghost var shutdown: Shutdown
    ghost var awaited: bool
    ghost var lastTouch: int
    ghost var moves: seq<Timed>

    ghost function View(): Process
      reads this
    {
      Process(token, halted, step, shutdown, awaited, hooks, scheduler, watcher, lastTouch, false)
    }

    ghost predicate Valid()
      reads this
    {
      (lock, View()) == Replay(firstLock, STARTED, moves)
    }

    constructor (l: Lock)
      ensures Valid() && View() == STARTED && lock == l
    {
      lock, firstLock := l, l;
      token, halted, hooks, scheduler, watcher := None, false, false, false, false;
      step, shutdown, awaited, lastTouch, moves := NotRunning, NotBegun, false, 0, [];
    }

    /** The caller has just done what the move does to the real fields; the ghost ones follow. */
    ghost method Moved(l: Lock, pr: Process, now: int, m: Move)
      requires (l, pr) == Replay(firstLock, STARTED, moves) && !pr.crashed
      requires lock == LockAfter(ANY_WORLD, l, now, pr, m)
      requires var pr' := ProcAfter(ANY_WORLD, l, now, pr, m);
               token == pr'.token && halted == pr'.halted && hooks == pr'.hooks && scheduler == pr'.scheduler
               && watcher == pr'.watcher
      modifies this`step, this`shutdown, this`awaited, this`lastTouch, this`moves
      ensures Valid() && View() == ProcAfter(ANY_WORLD, l, now, pr, m)
    {
      ReplaySnoc(firstLock, STARTED, moves, Timed(now, m));
      var pr' := ProcAfter(ANY_WORLD, l, now, pr, m);
      step, shutdown, awaited, lastTouch, moves := pr'.step, pr'.shutdown, pr'.awaited, pr'.lastTouch,
        moves + [Timed(now, m)];
    }

    // -------------------------------------------------------------- one await each

    method MakeDir(now: int, works: bool)
      requires Valid() && step.MakingDir?
      modifies this`step, this`shutdown, this`awaited, this`lastTouch, this`moves
      ensures Valid() && shutdown == old(shutdown) && step == if works then Acquiring(now, Creating) else NotRunning
    {
      Moved(lock, View(), now, if works then StepOk else StepFail);
    }

    /** Exclusive create; an error other than the lock's being there throws. */
    method CreateClaim(ghost at: int, ghost op: Taking, now: int, works: bool) returns (created: bool)
      requires Valid() && step == Acquiring(at, op) && (op.Creating? || op.CreatingAfterPark?)
      modifies this`lock, this`step, this`shutdown, this`awaited, this`lastTouch, this`moves
      ensures Valid() && shutdown == old(shutdown) && created == (works && old(lock).file.None?)
      ensures lock == if created then Lock(Some(File(old(lock).next, now)), old(lock).next + 1) else old(lock)
      ensures step == if created then Acquired(old(lock).next)
                      else if works && op.Creating? then Acquiring(at, ReadingAge) else NotRunning
    {
      ghost var l, pr := lock, View();
      created := works && lock.file.None?;
      if created {
        lock := Lock(Some(File(lock.next, now)), lock.next + 1);
      }
      Moved(l, pr, now, if works then StepOk else StepFail);
    }

    /** The age of the lock by the clock read when the acquisition began. */
    method ReadAge(at: int, now: int, works: bool) returns (stale: bool)
      requires Valid() && step == Acquiring(at, ReadingAge) && lock.file.Some?
      modifies this`step, this`shutdown, this`awaited, this`lastTouch, this`moves
      ensures Valid() && shutdown == old(shutdown) && stale == (works && IsStale(lock.file.value, at))
      ensures step == if stale then Acquiring(at, Parking) else NotRunning
    {
      stale := works && IsStale(lock.file.value, at);
      Moved(lock, View(), now, if works then StepOk else StepFail);
    }

    method Park(ghost at: int, now: int, works: bool) returns (parked: Option<File>)
      requires Valid() && step == Acquiring(at, Parking) && lock.file.Some?
      modifies this`lock, this`step, this`shutdown, this`awaited, this`lastTouch, this`moves
      ensures Valid() && shutdown == old(shutdown) && parked == (if works then old(lock).file else None)
      ensures lock == if works then old(lock).(file := None) else old(lock)
      ensures step == if works then Acquiring(at, ReadingParkedAge(old(lock).file.value)) else NotRunning
    {
      ghost var l, pr := lock, View();
      parked := None;
      if works {
        parked := lock.file;
        lock := lock.(file := None);
      }
      Moved(l, pr, now, if works then StepOk else StepFail);
    }

    method ReadParkedAge(at: int, parked: File, now: int, works: bool) returns (stale: bool)
      requires Valid() && step == Acquiring(at, ReadingParkedAge(parked)) && IsStale(parked, at)
      modifies this`step, this`shutdown, this`awaited, this`lastTouch, this`moves
      ensures Valid() && shutdown == old(shutdown) && stale == works
      ensures step == if works then Acquiring(at, CreatingAfterPark) else NotRunning
    {
      stale := works && IsStale(parked, at);
      Moved(lock, View(), now, if works then StepOk else StepFail);
    }

    /** The token is set in the same breath as hooks and scheduler start. */
    method BeginToLead(claim: nat, now: int)
      requires Valid() && step == Acquired(claim)
      modifies this`token, this`hooks, this`scheduler, this`step, this`shutdown, this`awaited, this`lastTouch,
        this`moves
      ensures Valid() && shutdown == old(shutdown)
      ensures if halted then
                && step == GivingBack(claim) && token == old(token)
                && hooks == old(hooks) && scheduler == old(scheduler)
              else step.StartingWatcher? && token == Some(claim) && hooks && scheduler
    {
      ghost var l, pr := lock, View();
      if !halted {
        token, hooks, scheduler := Some(claim), true, true;
      }
      Moved(l, pr, now, StepOk);
    }

    method SetWatcher(on: bool, now: int)
      requires Valid() && if on then step.StartingWatcher? else step.LosingWatcher?
      modifies this`watcher, this`step, this`shutdown, this`awaited, this`lastTouch, this`moves
      ensures Valid() && shutdown == old(shutdown) && step.Logging? && watcher == on
    {
      ghost var l, pr := lock, View();
      watcher := on;
      Moved(l, pr, now, StepOk);
    }

    ghost method Log(now: int)
      requires Valid() && step.Logging?
      modifies this`step, this`shutdown, this`awaited, this`lastTouch, this`moves
      ensures Valid() && shutdown == old(shutdown) && step.NotRunning?
    {
      Moved(lock, View(), now, StepOk);
    }

    /** releaseClaim's read: only its own lock is unlinked. */
    method ReadGivenBack(claim: nat, now: int, works: bool) returns (own: bool)
      requires Valid() && step == GivingBack(claim)
      modifies this`step, this`shutdown, this`awaited, this`lastTouch, this`moves
      ensures Valid() && shutdown == old(shutdown) && own == (works && HasToken(lock, claim))
      ensures step == if own then UnlinkingBack else NotRunning
    {
      own := works && HasToken(lock, claim);
      Moved(lock, View(), now, if works then StepOk else StepFail);
    }

    method UnlinkGivenBack(now: int, works: bool)
      requires Valid() && step.UnlinkingBack?
      modifies this`lock, this`step, this`shutdown, this`awaited, this`lastTouch, this`moves
      ensures Valid() && step.NotRunning? && shutdown == old(shutdown)
      ensures lock == if works then old(lock).(file := None) else old(lock)
    {
      ghost var l, pr := lock, View();
      if works {
        lock := lock.(file := None);
      }
      Moved(l, pr, now, if works then StepOk else StepFail);
    }

    /** stillHeld; a lease found lost clears the token and stops the scheduler at once. */
    method StillHeld(claim: nat, now: int, works: bool)
      requires Valid() && step == Checking(claim)
      modifies this`token, this`scheduler, this`step, this`shutdown, this`awaited, this`lastTouch, this`moves
      ensures Valid() && shutdown == old(shutdown)
      ensures if works && !HasToken(lock, claim) then step.LosingHooks? && token.None? && !scheduler
              else token == old(token) && scheduler == old(scheduler)
                   && step == if works then Touching(now) else NotRunning
    {
      ghost var l, pr := lock, View();
      if works && !HasToken(lock, claim) {
        token, scheduler := None, false;
      }
      Moved(l, pr, now, if works then StepOk else StepFail);
    }

    method Touch(at: int, now: int, works: bool)
      requires Valid() && step == Touching(at) && lock.file.Some?
      modifies this`lock, this`step, this`shutdown, this`awaited, this`lastTouch, this`moves
      ensures Valid() && step.NotRunning? && shutdown == old(shutdown)
      ensures lock == if works then old(lock).(file := Some(File(old(lock).file.value.token, at))) else old(lock)
    {
      ghost var l, pr := lock, View();
      if works {
        lock := lock.(file := Some(lock.file.value.(mtime := at)));
      }
      Moved(l, pr, now, if works then StepOk else StepFail);
    }

    method LoseHooks(now: int)
      requires Valid() && step.LosingHooks?
      modifies this`hooks, this`step, this`shutdown, this`awaited, this`lastTouch, this`moves
      ensures Valid() && shutdown == old(shutdown) && step.LosingWatcher? && !hooks
    {
      ghost var l, pr := lock, View();
      hooks := false;
      Moved(l, pr, now, StepOk);
    }

    /** Can come while a step runs. */
    method BeginHalt(now: int)
      requires Valid() && shutdown.NotBegun?
      modifies this`halted, this`step, this`shutdown, this`awaited, this`lastTouch, this`moves
      ensures Valid() && halted && shutdown.Halting? && step == old(step)
    {
      ghost var l, pr := lock, View();
      halted := true;
      Moved(l, pr, now, ShutOk);
    }

    /** The step that ran when the halt came has settled. */
    ghost method StepSettled(now: int)
      requires Valid() && shutdown.Halting? && halted && step.NotRunning?
      modifies this`step, this`shutdown, this`awaited, this`lastTouch, this`moves
      ensures Valid() && shutdown.StoppingScheduler?
    {
      ReplayKeepsInv(firstLock, STARTED, moves);
      Moved(lock, View(), now, ShutOk);
    }

    method StopScheduler(now: int)
      requires Valid() && halted && shutdown.StoppingScheduler?
      modifies this`scheduler, this`step, this`shutdown, this`awaited, this`lastTouch, this`moves
      ensures Valid() && shutdown.StoppingHooks? && !scheduler
    {
      ghost var l, pr := lock, View();
      scheduler := false;
      Moved(l, pr, now, ShutOk);
    }

    method StopHooks(now: int)
      requires Valid() && halted && shutdown.StoppingHooks?
      modifies this`hooks, this`step, this`shutdown, this`awaited, this`lastTouch, this`moves
      ensures Valid() && shutdown.StoppingWatcher? && !hooks
    {
      ghost var l, pr := lock, View();
      hooks := false;
      Moved(l, pr, now, ShutOk);
    }

    method StopWatcher(now: int)
      requires Valid() && halted && shutdown.StoppingWatcher?
      modifies this`watcher, this`step, this`shutdown, this`awaited, this`lastTouch, this`moves
      ensures Valid() && shutdown.ReleasingLease? && !watcher
    {
      ghost var l, pr := lock, View();
      watcher := false;
      Moved(l, pr, now, ShutOk);
    }

    method ClearToken(now: int) returns (held: Option<nat>)
      requires Valid() && halted && shutdown.ReleasingLease?
      modifies this`token, this`step, this`shutdown, this`awaited, this`lastTouch, this`moves
      ensures Valid() && held == old(token) && token.None?
      ensures shutdown == if held.Some? then ReadingOwn(held.value) else ShutDown
    {
      ghost var l, pr := lock, View();
      held := token;
      token := None;
      Moved(l, pr, now, ShutOk);
    }

    method ReadOwn(held: nat, now: int, works: bool) returns (own: bool)
      requires Valid() && halted && shutdown == ReadingOwn(held)
      modifies this`step, this`shutdown, this`awaited, this`lastTouch, this`moves
      ensures Valid() && own == (works && HasToken(lock, held))
      ensures shutdown == if own then Unlinking else ShutDown
    {
      ghost var l, pr := lock, View();
      own := works && HasToken(lock, held);
      Moved(l, pr, now, if works then ShutOk else ShutFail);
    }

    method Unlink(now: int, works: bool)
      requires Valid() && halted && shutdown.Unlinking?
      modifies this`lock, this`step, this`shutdown, this`awaited, this`lastTouch, this`moves
      ensures Valid() && shutdown.ShutDown? && lock == if works then old(lock).(file := None) else old(lock)
    {
      ghost var l, pr := lock, View();
      if works {
        lock := lock.(file := None);
      }
      Moved(l, pr, now, if works then ShutOk else ShutFail);
    }

    // -------------------------------------------------------------- the source's closures

    /** The branches that only another process's step could open are not there. */
    method AcquireClaim(now: int, io: Io) returns (claim: Option<nat>)
      requires Valid() && step == Acquiring(now, Creating)
      modifies this`lock, this`step, this`shutdown, this`awaited, this`lastTouch, this`moves
      ensures Valid() && shutdown == old(shutdown)
      ensures claim == if Wins(old(lock), now, io) then Some(old(lock).next) else None
      ensures step == if claim.Some? then Acquired(claim.value) else NotRunning
      ensures lock == LockAfterAttempt(old(lock), now, io)
    {
      claim := None;
      ghost var first := lock;
      var next := lock.next;
      var created := CreateClaim(now, Creating, now, io.create);
      if !created && io.create {
        var stale := ReadAge(now, now, io.age);
        if stale {
          var parked := Park(now, now, io.park);
          if parked.Some? {
            stale := ReadParkedAge(now, parked.value, now, io.ageAgain);
            if stale {
              created := CreateClaim(now, CreatingAfterPark, now, io.createAgain);
            }
          }
        }
      }
      if created {
        claim := Some(next);
      }
    }

    /** A claim won after the halt is given back; otherwise the process leads from here on. */
    method TryToLead(now: int, io: Io)
      requires Valid() && step == Acquiring(now, Creating)
      modifies this
      ensures Valid() && step.NotRunning? && halted == old(halted) && shutdown == old(shutdown)
      ensures var wins := Wins(old(lock), now, io);
              && token == (if wins && !halted then Some(old(lock).next) else None)
              && (if token.Some? then hooks && scheduler && watcher else !WritersOn(View()))
              && lock == if halted then LockAfterHalt(old(lock), now, io) else LockAfterAttempt(old(lock), now, io)
    {
      ReplayKeepsInv(firstLock, STARTED, moves);
      var claim := AcquireClaim(now, io);
      if claim.Some? {
        BeginToLead(claim.value, now);
        if halted {
          var own := ReadGivenBack(claim.value, now, io.readOwn);
          if own {
            UnlinkGivenBack(now, io.unlink);
          }
        } else {
          SetWatcher(true, now);
          Log(now);
        }
      }
    }

    /** Renew the lease held, or lose it: then scheduler, hooks and watcher stop in that order. */
    method RenewOrLose(claim: nat, now: int, io: Io)
      requires Valid() && step == Checking(claim) && token == Some(claim)
      modifies this
      ensures Valid() && step.NotRunning? && halted == old(halted) && shutdown == old(shutdown)
      ensures var kept := !io.read || HasToken(old(lock), claim);
              && token == (if kept then Some(claim) else None)
              && (if kept then hooks == old(hooks) && scheduler == old(scheduler) && watcher == old(watcher)
                  else !WritersOn(View()))
              && lock == (if io.read && kept && io.touch then old(lock).(file := Some(File(claim, now))) else old(lock))
    {
      var held := HasToken(lock, claim);
      StillHeld(claim, now, io.read);
      if io.read && held {
        Touch(now, now, io.touch);
      } else if io.read {
        LoseHooks(now);
        SetWatcher(false, now);
        Log(now);
      }
    }

    /** The timer's tick; halting has cleared it. */
    method RunTick(now: int, io: Io)
      requires Valid() && step.NotRunning? && !halted
      modifies this
      ensures Valid() && step.NotRunning? && !halted && shutdown == old(shutdown)
      // followers lead only over a free or stale lock; leaders keep the lease exactly while the lock is theirs
      ensures old(token).None? ==>
                && token == (if io.mkdir && Wins(old(lock), now, io) then Some(old(lock).next) else None)
                && lock == if io.mkdir then LockAfterAttempt(old(lock), now, io) else old(lock)
      ensures old(token).Some? ==>
                && token == (if !io.read || HasToken(old(lock), old(token).value) then old(token) else None)
                && lock == if io.read && io.touch && HasToken(old(lock), old(token).value)
                           then old(lock).(file := Some(File(old(token).value, now))) else old(lock)
      ensures token.None? ==> !WritersOn(View())
      ensures token.Some? && old(token).None? ==> hooks && scheduler && watcher
    {
      ReplayKeepsInv(firstLock, STARTED, moves);
      Moved(lock, View(), now, Tick);
      if token.None? {
        MakeDir(now, io.mkdir);
        if io.mkdir {
          TryToLead(now, io);
        }
      } else {
        RenewOrLose(token.value, now, io);
      }
    }

    /** The shutdown steps: halt, the three stops, and only then the release. */
    method RunShutdown(now: int, io: Io)
      requires Valid() && step.NotRunning? && shutdown.NotBegun?
      modifies this
      ensures Valid() && shutdown.ShutDown? && halted && token.None? && !WritersOn(View())
      ensures lock == if old(token).Some? && HasToken(old(lock), old(token).value) && io.readOwn && io.unlink
                      then old(lock).(file := None) else old(lock)
    {
      BeginHalt(now);
      StepSettled(now);
      StopScheduler(now);
      StopHooks(now);
      StopWatcher(now);
      var held := ClearToken(now);
      if held.Some? {
        var own := ReadOwn(held.value, now, io.readOwn);
        if own {
          Unlink(now, io.unlink);
        }
      }
    }

    /** The halt comes while mkdir runs: shutdown waits for the attempt, and what it wins is given back. */
    method ShutdownDuringAttempt(now: int, io: Io)
      requires Valid() && step.NotRunning? && shutdown.NotBegun? && token.None?
      modifies this
      ensures Valid() && shutdown.StoppingScheduler? && token.None? && !WritersOn(View())
      ensures lock == if io.mkdir then LockAfterHalt(old(lock), now, io) else old(lock)
    {
      ReplayKeepsInv(firstLock, STARTED, moves);
      Moved(lock, View(), now, Tick);
      BeginHalt(now);
      MakeDir(now, io.mkdir);
      if io.mkdir {
        TryToLead(now, io);
      }
      ReplayKeepsInv(firstLock, STARTED, moves);
      StepSettled(now);
    }
  }
}
