/**
 * Exactly when the writer lease keeps a second writer away: the positive half from the invariants,
 * the other half from a run for each world that breaks it.
 */
module LeaseTheorems {
  import opened ClaimFile
  import opened LeaseProtocol
  import opened LeaseSafety
  import opened Wrappers

  ghost predicate AlwaysOneWriter(w: World) {
    forall left, es :: AtMostOneWriter(Run(w, Boot(w, left), es))
  }

  /**
   * A single process; or touches in time and, for two of them, no way to lose a fresh lock renamed
   * away; for more, no fresh lock renamed away at all, and releases in time too.
   */
  predicate KeepsOneWriter(w: World) {
    w.contenders <= 1
    || (w.touchesInTime
        && if w.contenders == 2 then !w.freshMayBeParked || !w.parkedMayBeLost
           else !w.freshMayBeParked && w.releasesInTime)
  }

  /** In every run at most one process runs hooks, watcher or scheduler, if and only if the world is one of those. */
  lemma OneWriterExactly(w: World)
    ensures AlwaysOneWriter(w) <==> KeepsOneWriter(w)
  {
    if KeepsOneWriter(w) {
      forall left, es ensures AtMostOneWriter(Run(w, Boot(w, left), es)) {
        KeptOneWriter(w, left, es);
      }
    } else if !w.touchesInTime {
      var left, es := LateTouchOverlaps(w);
    } else if w.contenders >= 3 && !w.releasesInTime {
      var left, es := LateReleaseOverlaps(w);
    } else if w.contenders >= 3 {
      var left, es := FreshLockIsParked(w);
    } else {
      var left, es := ParkedLockIsLost(w);
    }
  }

  lemma KeptOneWriter(w: World, left: bool, es: seq<Event>)
    requires KeepsOneWriter(w)
    ensures AtMostOneWriter(Run(w, Boot(w, left), es))
  {
    if w.contenders <= 1 {
      EveryProcessKeepsInv(w, Boot(w, left), es);
    } else if w.contenders == 2 {
      RunKeepsTwo(w, Boot(w, left), es);
    } else {
      RunKeepsMany(w, Boot(w, left), es);
    }
  }

  // ------------------------------------------------------------------ building runs

  lemma {:induction false} RunSnoc(w: World, s: Machine, es: seq<Event>, e: Event)
    ensures Run(w, s, es + [e]) == Apply(w, Run(w, s, es), e)
    decreases |es|
  {
    if es == [] {
      assert [e][1..] == [];
    } else {
      assert (es + [e])[1..] == es[1..] + [e];
      RunSnoc(w, Apply(w, s, es[0]), es[1..], e);
    }
  }

  lemma Then(w: World, q: Machine, es: seq<Event>, s: Machine, e: Event) returns (es': seq<Event>, s': Machine)
    requires s == Run(w, q, es)
    ensures es' == es + [e] && s' == Apply(w, s, e) && s' == Run(w, q, es')
  {
    es', s' := es + [e], Apply(w, s, e);
    RunSnoc(w, q, es, e);
  }

  /** Process p's next operation works. */
  lemma Works(w: World, q: Machine, es: seq<Event>, s: Machine, p: nat) returns (es': seq<Event>, s': Machine)
    requires s == Run(w, q, es) && p < |s.procs| && !s.procs[p].crashed && MayStep(w, s.lock, s.procs[p], true)
    ensures s' == Run(w, q, es')
    ensures s' == s.(lock := LockAfter(w, s.lock, s.clock, s.procs[p], StepOk),
                     procs := s.procs[p := StepAfter(s.lock, s.clock, s.procs[p], true)])
  {
    es', s' := Then(w, q, es, s, Act(p, StepOk));
  }

  function With(s: Machine, p: nat, pr: Process, l: Lock): Machine
    requires p < |s.procs|
  {
    s.(lock := l, procs := s.procs[p := pr])
  }

  function Asking(at: int, op: Taking): Process {
    STARTED.(step := Acquiring(at, op))
  }

  function Leader(claim: nat, at: int): Process {
    STARTED.(token := Some(claim), hooks := true, scheduler := true, step := StartingWatcher, lastTouch := at)
  }

  lemma Asks(w: World, q: Machine, es: seq<Event>, s: Machine, p: nat) returns (es': seq<Event>, s': Machine)
    requires s == Run(w, q, es) && p < |s.procs| && s.procs[p] == STARTED
    ensures s' == With(s, p, Asking(s.clock, Creating), s.lock) && s' == Run(w, q, es')
  {
    var s1;
    es', s1 := Then(w, q, es, s, Act(p, Tick));
    assert s1 == With(s, p, STARTED.(step := MakingDir), s.lock);
    es', s' := Works(w, q, es', s1, p);
  }

  lemma Creates(w: World, q: Machine, es: seq<Event>, s: Machine, p: nat, at: int, op: Taking)
    returns (es': seq<Event>, s': Machine)
    requires s == Run(w, q, es) && p < |s.procs| && s.procs[p] == Asking(at, op)
             && (op.Creating? || op.CreatingAfterPark?) && s.lock.file.None?
    ensures s' == With(s, p, Leader(s.lock.next, s.clock), Lock(Some(File(s.lock.next, s.clock)), s.lock.next + 1))
            && s' == Run(w, q, es')
  {
    var s1;
    es', s1 := Works(w, q, es, s, p);
    assert s1.procs[p] == STARTED.(step := Acquired(s.lock.next), lastTouch := s.clock);
    es', s' := Works(w, q, es', s1, p);
  }

  /** A process that finds the lock free leads, if nothing comes between its operations. */
  lemma TakesFree(w: World, q: Machine, es: seq<Event>, s: Machine, p: nat) returns (es': seq<Event>, s': Machine)
    requires s == Run(w, q, es) && p < |s.procs| && s.procs[p] == STARTED && s.lock.file.None?
    ensures s' == With(s, p, Leader(s.lock.next, s.clock), Lock(Some(File(s.lock.next, s.clock)), s.lock.next + 1))
            && s' == Run(w, q, es')
  {
    var s1;
    es', s1 := Asks(w, q, es, s, p);
    es', s' := Creates(w, q, es', s1, p, s.clock, Creating);
  }

  lemma FindsStale(w: World, q: Machine, es: seq<Event>, s: Machine, p: nat) returns (es': seq<Event>, s': Machine)
    requires s == Run(w, q, es) && p < |s.procs| && s.procs[p] == STARTED && s.lock.file.Some?
             && IsStale(s.lock.file.value, s.clock)
    ensures s' == With(s, p, Asking(s.clock, Parking), s.lock) && s' == Run(w, q, es')
  {
    var s1, s2;
    es', s1 := Asks(w, q, es, s, p);
    es', s2 := Works(w, q, es', s1, p);
    assert s2 == With(s, p, Asking(s.clock, ReadingAge), s.lock);
    es', s' := Works(w, q, es', s2, p);
  }

  lemma Parks(w: World, q: Machine, es: seq<Event>, s: Machine, p: nat, at: int) returns (es': seq<Event>, s': Machine)
    requires s == Run(w, q, es) && p < |s.procs| && s.procs[p] == Asking(at, Parking) && s.lock.file.Some?
    requires w.freshMayBeParked || IsStale(s.lock.file.value, at)
    ensures s' == With(s, p, Asking(at, ReadingParkedAge(s.lock.file.value)), s.lock.(file := None))
            && s' == Run(w, q, es')
  {
    es', s' := Works(w, q, es, s, p);
  }

  /** So does one that finds it stale. */
  lemma TakesStale(w: World, q: Machine, es: seq<Event>, s: Machine, p: nat) returns (es': seq<Event>, s': Machine)
    requires s == Run(w, q, es) && p < |s.procs| && s.procs[p] == STARTED && s.lock.file.Some?
             && IsStale(s.lock.file.value, s.clock)
    ensures s' == With(s, p, Leader(s.lock.next, s.clock), Lock(Some(File(s.lock.next, s.clock)), s.lock.next + 1))
            && s' == Run(w, q, es')
  {
    var s1, s2, s3;
    es', s1 := FindsStale(w, q, es, s, p);
    es', s2 := Parks(w, q, es', s1, p, s.clock);
    es', s3 := Works(w, q, es', s2, p);
    assert s3 == With(s, p, Asking(s.clock, CreatingAfterPark), s.lock.(file := None));
    es', s' := Creates(w, q, es', s3, p, s.clock, CreatingAfterPark);
  }

  lemma Waits(w: World, q: Machine, es: seq<Event>, s: Machine) returns (es': seq<Event>, s': Machine)
    requires s == Run(w, q, es) && InTime(w, s, WRITER_LEASE_STALE_MS + 1)
    ensures s' == s.(clock := s.clock + WRITER_LEASE_STALE_MS + 1) && s' == Run(w, q, es')
  {
    es', s' := Then(w, q, es, s, Wait(WRITER_LEASE_STALE_MS + 1));
  }

  // ------------------------------------------------------------------ runs that break it

  /** A leader that lets its touch grow stale is joined by a second one. */
  lemma LateTouchOverlaps(w: World) returns (left: bool, es: seq<Event>)
    requires w.contenders >= 2 && !w.touchesInTime
    ensures !AtMostOneWriter(Run(w, Boot(w, left), es))
  {
    left := false;
    var q := Boot(w, left);
    var s1, s2, s3;
    es, s1 := TakesFree(w, q, [], q, 0);
    es, s2 := Waits(w, q, es, s1);
    es, s3 := TakesStale(w, q, es, s2, 1);
    assert WritersOn(s3.procs[0]) && WritersOn(s3.procs[1]);
  }

  /** The second of two that saw a dead lock takes it; the first, late, renames that fresh lock away. */
  lemma ParksAFreshLock(w: World, q: Machine) returns (es: seq<Event>, s: Machine)
    requires w.contenders >= 2 && w.freshMayBeParked && q == Boot(w, true)
    ensures s == Run(w, q, es) && s.clock == 0
    ensures s == With(With(q, 1, Leader(1, 0), Lock(None, 2)), 0, Asking(0, ReadingParkedAge(File(1, 0))),
                      Lock(None, 2))
  {
    var s1, s2;
    es, s1 := FindsStale(w, q, [], q, 0);
    es, s2 := TakesStale(w, q, es, s1, 1);
    es, s := Parks(w, q, es, s2, 0, 0);
  }

  /** A third process leads before the fresh lock is put back: two writers, every touch zero milliseconds old. */
  lemma FreshLockIsParked(w: World) returns (left: bool, es: seq<Event>)
    requires w.contenders >= 3 && w.freshMayBeParked
    ensures !AtMostOneWriter(Run(w, Boot(w, left), es))
  {
    left := true;
    var q := Boot(w, left);
    var s1, s2;
    es, s1 := ParksAFreshLock(w, q);
    es, s2 := TakesFree(w, q, es, s1, 2);
    assert WritersOn(s2.procs[1]) && WritersOn(s2.procs[2]);
  }

  /** An error on the file renamed away loses it, and the process that renamed it leads beside its owner. */
  lemma ParkedLockIsLost(w: World) returns (left: bool, es: seq<Event>)
    requires w.contenders >= 2 && w.freshMayBeParked && w.parkedMayBeLost
    ensures !AtMostOneWriter(Run(w, Boot(w, left), es))
  {
    left := true;
    var q := Boot(w, left);
    var s1, s2, s3;
    es, s1 := ParksAFreshLock(w, q);
    es, s2 := Then(w, q, es, s1, Act(0, StepFail));
    assert s2 == With(s1, 0, STARTED, s1.lock);
    es, s3 := TakesFree(w, q, es, s2, 0);
    assert WritersOn(s3.procs[0]) && WritersOn(s3.procs[1]);
  }

  /** The leader's watcher starts, and a shutdown stops the scheduler. */
  lemma StopsScheduler(w: World, q: Machine, es: seq<Event>, s: Machine) returns (es': seq<Event>, s': Machine)
    requires s == Run(w, q, es) && |s.procs| > 0 && s.procs[0] == Leader(1, 0)
    ensures s' == Run(w, q, es')
    ensures var stopped := Leader(1, 0).(step := NotRunning, watcher := true, halted := true, scheduler := false);
            s' == With(s, 0, stopped.(shutdown := StoppingHooks), s.lock)
  {
    var s1, s2;
    es', s1 := Works(w, q, es, s, 0);
    es', s2 := Works(w, q, es', s1, 0);
    assert s2 == With(s, 0, Leader(1, 0).(step := NotRunning, watcher := true), s.lock);
    es', s' := Then(w, q, es', s2, Act(0, ShutOk));
    es', s' := Then(w, q, es', s', Act(0, ShutOk));
    es', s' := Then(w, q, es', s', Act(0, ShutOk));
  }

  /** A shutdown up to the unlink: the lock was its own when read. */
  lemma ReadsItsOwn(w: World, q: Machine, es: seq<Event>, s: Machine) returns (es': seq<Event>, s': Machine)
    requires s == Run(w, q, es) && |s.procs| > 0 && s.procs[0] == Leader(1, 0) && HasToken(s.lock, 1)
    ensures s' == Run(w, q, es')
    ensures s' == With(s, 0, STARTED.(halted := true, shutdown := Unlinking), s.lock)
  {
    var s1, s2;
    es', s1 := StopsScheduler(w, q, es, s);
    es', s2 := Then(w, q, es', s1, Act(0, ShutOk));
    es', s2 := Then(w, q, es', s2, Act(0, ShutOk));
    assert s2 == With(s, 0, STARTED.(token := Some(1), halted := true, shutdown := ReleasingLease), s.lock);
    es', s' := Then(w, q, es', s2, Act(0, ShutOk));
    es', s' := Then(w, q, es', s', Act(0, ShutOk));
  }

  /**
   * It stalls before the unlink; a second process takes over, the first removes that one's lock, and a
   * third leads too.
   */
  lemma LateReleaseOverlaps(w: World) returns (left: bool, es: seq<Event>)
    requires w.contenders >= 3 && !w.releasesInTime
    ensures !AtMostOneWriter(Run(w, Boot(w, left), es))
  {
    left := false;
    var q := Boot(w, left);
    var s1, s2, s3, s4, s5, s6;
    es, s1 := TakesFree(w, q, [], q, 0);
    es, s2 := ReadsItsOwn(w, q, es, s1);
    es, s3 := Waits(w, q, es, s2);
    es, s4 := TakesStale(w, q, es, s3, 1);
    es, s5 := Then(w, q, es, s4, Act(0, ShutOk));
    assert s5.lock.file.None? && s5.procs[2] == STARTED;
    es, s6 := TakesFree(w, q, es, s5, 2);
    assert WritersOn(s6.procs[1]) && WritersOn(s6.procs[2]);
  }
}
