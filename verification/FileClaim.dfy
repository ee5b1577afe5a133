/**
 * Whether claims are exclusive: any number of contenders for one lock file, interleaved at every file
 * operation; a restarted process is a new contender.
 */
module FileClaim {
  import opened ClaimFile
  import opened Wrappers

  datatype Phase =
    | Idle
    | Acquiring(op: Taking)
    | Holding(token: nat)
    /** Release read its own token in the lock and will now unlink it. */
    | Releasing(token: nat)
    | Crashed

  datatype State = State(lock: Lock, phases: seq<Phase>)

  /** A contender's next file operation, a release, or a crash; `stale` is what an age it reads would say. */
  datatype Event = Proceed(p: nat, stale: bool) | Release(p: nat) | Crash(p: nat)

  predicate Active(phase: Phase) {
    phase.Holding? || phase.Releasing?
  }

  /** A live process keeps its file fresh, from the create to the unlink. */
  predicate Live(s: State, token: nat) {
    exists p | 0 <= p < |s.phases| :: Active(s.phases[p]) && s.phases[p].token == token
  }

  function At(s: State, p: nat, phase: Phase): State
    requires p < |s.phases|
  {
    s.(phases := s.phases[p := phase])
  }

  function Takes(s: State, p: nat, op: Taking, stale: bool): State
    requires p < |s.phases|
  {
    var file := AgeOf(s.lock, op);
    var next := match Take(s.lock, op, stale && file.Some? && !Live(s, file.value.token))
                case Next(op') => Acquiring(op')
                case Got(token) => Holding(token)
                case Refused => Idle;
    At(s.(lock := LockAfterTaking(s.lock, op, 0)), p, next)
  }

  function Step(s: State, e: Event): State {
    if e.p >= |s.phases| then s
    else match e
      case Proceed(p, stale) =>
        (match s.phases[p]
         case Idle => Takes(s, p, Creating, stale)
         case Acquiring(op) => Takes(s, p, op, stale)
         case Releasing(_) => At(s.(lock := s.lock.(file := None)), p, Idle)
         case Holding(_) => s
         case Crashed => s)
      case Release(p) =>
        if !s.phases[p].Holding? then s
        else if HasToken(s.lock, s.phases[p].token) then At(s, p, Releasing(s.phases[p].token))
        else At(s, p, Idle)
      case Crash(p) => At(s, p, Crashed)
  }

  function Run(s: State, events: seq<Event>): State {
    if events == [] then s else Step(Run(s, events[..|events| - 1]), events[|events| - 1])
  }

  /** No lock, or one a dead process left behind. */
  function Start(contenders: nat, left: bool): State {
    State(Lock(if left then Some(File(0, 0)) else None, 1), seq(contenders, _ => Idle))
  }

  predicate OneHolds(s: State) {
    forall p, q | 0 <= p < |s.phases| && 0 <= q < |s.phases| && s.phases[p].Holding? && s.phases[q].Holding? :: p == q
  }

  // ------------------------------------------------------------------ two contenders

  /** The other of two contenders; one that is not there never acts. */
  function Other(s: State, p: nat): Phase {
    if p < 2 && 1 - p < |s.phases| then s.phases[1 - p] else Crashed
  }

  predicate HasAside(phase: Phase, token: nat) {
    phase.Acquiring? && Aside(phase.op).Some? && Aside(phase.op).value.token == token
  }

  /** A live contender's file is the lock, or the other has it aside and will put it back, or has died with it. */
  predicate Kept(s: State, p: nat, token: nat) {
    HasToken(s.lock, token) || (s.lock.file.None? && (HasAside(Other(s, p), token) || Other(s, p).Crashed?))
  }

  predicate KeptBy(s: State, p: nat) {
    p < |s.phases| && Active(s.phases[p]) ==> Kept(s, p, s.phases[p].token) && !Active(Other(s, p))
  }

  predicate BothKept(s: State) {
    |s.phases| <= 2 && KeptBy(s, 0) && KeptBy(s, 1)
  }

  lemma StepKeepsActor(s: State, e: Event)
    requires BothKept(s) && e.p < |s.phases|
    ensures KeptBy(Step(s, e), e.p)
  {
    assert KeptBy(s, e.p) && KeptBy(s, 1 - e.p);
    assert Other(Step(s, e), e.p) == Other(s, e.p);
  }

  lemma StepKeepsOther(s: State, e: Event)
    requires BothKept(s) && e.p < |s.phases|
    ensures KeptBy(Step(s, e), 1 - e.p)
  {
    assert KeptBy(s, e.p) && KeptBy(s, 1 - e.p);
    if 1 - e.p < |s.phases| && Active(s.phases[1 - e.p]) {
      assert Live(s, s.phases[1 - e.p].token);
    }
  }

  lemma StepKeepsBoth(s: State, e: Event)
    requires BothKept(s)
    ensures BothKept(Step(s, e))
  {
    if e.p < |s.phases| {
      StepKeepsActor(s, e);
      StepKeepsOther(s, e);
      assert e.p == 0 || e.p == 1;
    }
  }

  lemma {:induction false} RunKeepsBoth(contenders: nat, left: bool, events: seq<Event>)
    requires contenders <= 2
    ensures BothKept(Run(Start(contenders, left), events))
  {
    if events != [] {
      RunKeepsBoth(contenders, left, events[..|events| - 1]);
      StepKeepsBoth(Run(Start(contenders, left), events[..|events| - 1]), events[|events| - 1]);
    }
  }

  lemma BothKeptOneHolds(s: State)
    requires BothKept(s)
    ensures OneHolds(s)
  {
    if |s.phases| == 2 && s.phases[0].Holding? && s.phases[1].Holding? {
      assert Kept(s, 0, s.phases[0].token) && Kept(s, 1, s.phases[1].token);
    }
  }

  // ------------------------------------------------------------------ three contenders

  /**
   * A and B see the dead lock; B takes it. A, acting on what it saw, renames B's fresh lock away, and
   * C creates one before A can put it back.
   */
  function Race(): seq<Event> {
    [Proceed(0, true), Proceed(0, true),
     Proceed(1, true), Proceed(1, true), Proceed(1, true), Proceed(1, true), Proceed(1, true),
     Proceed(0, true), Proceed(2, true)]
  }

  ghost predicate Stands(s: State, n: nat, lock: Lock, a: Phase, b: Phase, c: Phase) {
    && |s.phases| == n >= 3 && s.lock == lock
    && s.phases[0] == a && s.phases[1] == b && s.phases[2] == c && forall p | 3 <= p < n :: s.phases[p] == Idle
  }

  lemma OneEventMore(s: State, events: seq<Event>, e: Event)
    ensures Run(s, events + [e]) == Step(Run(s, events), e)
  {
    assert (events + [e])[..|events + [e]| - 1] == events;
  }

  const DEAD_LOCK: Lock := Lock(Some(File(0, 0)), 1)

  lemma BothSeeTheDeadLock(s: State, n: nat)
    requires Stands(s, n, DEAD_LOCK, Idle, Idle, Idle)
    ensures Stands(Run(s, Race()[..4]), n, DEAD_LOCK, Acquiring(Parking), Acquiring(Parking), Idle)
  {
    var go := Race();
    var s1 := Step(s, go[0]);
    var s2 := Step(s1, go[1]);
    var s3 := Step(s2, go[2]);
    assert Stands(s2, n, DEAD_LOCK, Acquiring(Parking), Idle, Idle);
    assert Stands(Step(s3, go[3]), n, DEAD_LOCK, Acquiring(Parking), Acquiring(Parking), Idle);
    assert go[..4] == [] + [go[0]] + [go[1]] + [go[2]] + [go[3]];
    OneEventMore(s, [], go[0]);
    OneEventMore(s, [] + [go[0]], go[1]);
    OneEventMore(s, [] + [go[0]] + [go[1]], go[2]);
    OneEventMore(s, [] + [go[0]] + [go[1]] + [go[2]], go[3]);
  }

  lemma BTakesTheDeadLock(s: State, n: nat)
    requires Stands(s, n, DEAD_LOCK, Idle, Idle, Idle)
    ensures Stands(Run(s, Race()[..7]), n, Lock(Some(File(1, 0)), 2), Acquiring(Parking), Holding(1), Idle)
  {
    var go, seen := Race(), Race()[..4];
    BothSeeTheDeadLock(s, n);
    var s4 := Run(s, seen);
    var s5 := Step(s4, go[4]);
    var s6 := Step(s5, go[5]);
    assert Stands(s5, n, Lock(None, 1), Acquiring(Parking), Acquiring(ReadingParkedAge(File(0, 0))), Idle);
    assert Stands(s6, n, Lock(None, 1), Acquiring(Parking), Acquiring(CreatingAfterPark), Idle);
    assert Stands(Step(s6, go[6]), n, Lock(Some(File(1, 0)), 2), Acquiring(Parking), Holding(1), Idle);
    assert go[..7] == seen + [go[4]] + [go[5]] + [go[6]];
    OneEventMore(s, seen, go[4]);
    OneEventMore(s, seen + [go[4]], go[5]);
    OneEventMore(s, seen + [go[4]] + [go[5]], go[6]);
  }

  lemma ThreeCanBothHold(n: nat)
    requires n >= 3
    ensures !OneHolds(Run(Start(n, true), Race()))
  {
    var s, r := Start(n, true), Race();
    BTakesTheDeadLock(s, n);
    assert r[..8] == r[..7] + [r[7]] && r == r[..8] + [r[8]];
    OneEventMore(s, r[..7], r[7]);
    assert Stands(Run(s, r[..8]), n, Lock(None, 2), Acquiring(ReadingParkedAge(File(1, 0))), Holding(1), Idle);
    OneEventMore(s, r[..8], r[8]);
    var end := Run(s, r);
    assert end.phases[1].Holding? && end.phases[2].Holding?;
  }

  /** Claims are exclusive in every run exactly when no more than two processes ever contend for the lock. */
  lemma ExclusiveExactlyForTwo(contenders: nat)
    ensures (forall left, events :: OneHolds(Run(Start(contenders, left), events))) <==> contenders <= 2
  {
    if contenders <= 2 {
      forall left, events ensures OneHolds(Run(Start(contenders, left), events)) {
        RunKeepsBoth(contenders, left, events);
        BothKeptOneHolds(Run(Start(contenders, left), events));
      }
    } else {
      ThreeCanBothHold(contenders);
    }
  }
}
