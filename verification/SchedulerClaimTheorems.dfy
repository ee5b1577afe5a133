/**
 * How many contenders for the lock file keep the queue's promises: exactly which worlds and numbers,
 * from the step system's invariant on one side and runs on the lock file's own operations on the other.
 */
module SchedulerClaimTheorems {
  import opened ClaimFile
  import opened SchedulerClaims
  import opened SchedulerProtocol
  import opened SchedulerSafety
  import opened Wrappers
  import FileClaim

  /** Submissions within the attempts on disk, and the entry in one place. */
  predicate Promised(s: Queue) {
    Bounded(s) && InOnePlace(s)
  }

  ghost predicate AlwaysPromised(w: World, contenders: nat) {
    forall left, sendAt, draft, es :: Promised(RunDesk(w, Opened(contenders, left, sendAt, draft), es).queue)
  }

  /** One contender; or two, when the read before the claim does not fail. */
  predicate FewEnough(w: World, contenders: nat) {
    contenders <= 1 || (contenders == 2 && !w.firstReadMayFail)
  }

  /** With the claim's real file operations the promises hold in every run if and only if contenders are few enough. */
  lemma PromisedExactly(w: World, contenders: nat)
    ensures AlwaysPromised(w, contenders) <==> FewEnough(w, contenders)
  {
    if FewEnough(w, contenders) {
      forall left, sendAt, draft, es
        ensures Promised(RunDesk(w, Opened(contenders, left, sendAt, draft), es).queue)
      {
        Keeps(w, contenders, left, sendAt, draft, es);
      }
    } else if contenders >= 3 {
      var es := TwoHoldersSubmitTwice(w, contenders);
    } else {
      var es := StaleFailureUndoesAnAttempt(w, contenders);
    }
  }

  lemma Keeps(w: World, contenders: nat, left: bool, sendAt: SendTime, draft: bool, es: seq<Turn>)
    requires FewEnough(w, contenders)
    ensures Promised(RunDesk(w, Opened(contenders, left, sendAt, draft), es).queue)
  {
    var s := Opened(contenders, left, sendAt, draft);
    if contenders <= 1 {
      SoleRun(w, s, es);
    } else {
      var seen := RunIsSeen(w, s, es);
      ScheduledInv(sendAt, draft);
      RunKeepsInv(Checked(w), s.queue, seen);
    }
  }

  /** With two, and reads that hold, what is final in the step system is final on the lock file. */
  lemma FinalForTwo(w: World, left: bool, sendAt: SendTime, draft: bool, es: seq<Turn>, more: seq<Turn>)
    requires !w.firstReadMayFail && !w.rereadMayFail
    ensures var s := RunDesk(w, Opened(2, left, sendAt, draft), es);
            var s' := RunDesk(w, s, more).queue;
            && (DeliveryRecorded(s.queue) ==> s'.submissions == s.queue.submissions)
            && (s.queue.cancelled ==> s'.submissions == s.queue.submissions && s'.pending.None?)
  {
    var q := Opened(2, left, sendAt, draft);
    var s := RunDesk(w, q, es);
    var seen := RunIsSeen(w, q, es);
    var later := RunIsSeen(w, s, more);
    ScheduledInv(sendAt, draft);
    RunKeepsInv(Checked(w), q.queue, seen);
    RunKeepsFailuresLive(Checked(w), q.queue, seen);
    if Final(s.queue) {
      FinalStaysFinal(Checked(w), s.queue, later);
    }
    if s.queue.cancelled {
      GoneStaysGone(Checked(w), s.queue, later);
    }
  }

  // ------------------------------------------------------------------ one contender

  /** Alone, a task finds the files as it left them, with the claim or without. */
  ghost predicate SoleTask(s: Queue, t: Task) {
    match t
    case ReadingFailure(_) => true
    case WritingFailure(_, failed) => s.pending.Some? && failed == AfterFailure(s.pending.value)
    case _ => TaskInv(s, t)
  }

  ghost predicate SoleInv(s: Queue) {
    && s.tasks.Keys <= {0} && SoleTask(s, TaskOf(s, 0))
    && Bounded(s) && InOnePlace(s) && FailedIsExhausted(s)
  }

  lemma SoleStep(w: World, s: Queue, t: Task, o: Outcome)
    requires SoleTask(s, t) && Bounded(s) && InOnePlace(s) && FailedIsExhausted(s)
    ensures var s', t' := FilesAfter(w, s, t, o), TaskAfter(w, s, t, o);
            SoleTask(s', t') && Bounded(s') && InOnePlace(s') && FailedIsExhausted(s') && s'.tasks == s.tasks
  {
  }

  /** What is asked of the files does not look at the table of tasks. */
  lemma SoleWith(s: Queue, t: Task)
    requires s.tasks.Keys <= {0} && SoleTask(s, t) && Bounded(s) && InOnePlace(s) && FailedIsExhausted(s)
    ensures SoleInv(With(s, 0, t))
  {
    var after := With(s, 0, t);
    assert TaskOf(after, 0) == t;
    SoleTaskSame(s, after, t);
  }

  lemma SoleTaskSame(s: Queue, s': Queue, t: Task)
    requires s'.pending == s.pending && s'.submissions == s.submissions
    ensures SoleTask(s', t) == SoleTask(s, t)
  {
  }

  lemma SoleApply(w: World, s: Queue, o: Outcome)
    requires SoleInv(s)
    ensures SoleInv(Apply(w, s, 0, o))
  {
    var t := TaskOf(s, 0);
    if o.Crash? {
      SoleWith(s, Crashed);
    } else if o.StartCheck? || o.StartCancel? {
      SoleWith(s, if !t.Idle? then t else if o.StartCheck? then Reading(o.now) else CancelReading);
    } else {
      SoleStep(w, s, t, o);
      SoleWith(FilesAfter(w, s, t, o), TaskAfter(w, s, t, o));
    }
  }

  lemma SoleTurn(w: World, s: Desk, e: Turn)
    requires SoleInv(s.queue) && |s.claim.phases| <= 1
    ensures SoleInv(Step(w, s, e).queue) && |Step(w, s, e).claim.phases| <= 1
  {
    if e.p < |s.claim.phases| {
      var o := SeenAs(w, s, e);
      if o.Some? {
        SoleApply(Unchecked(w), s.queue, o.value);
      }
    }
  }

  /** What a turn comes to for the queue. */
  lemma SeenAs(w: World, s: Desk, e: Turn) returns (o: Option<Outcome>)
    requires e.p < |s.claim.phases|
    ensures Step(w, s, e).queue == if o.Some? then Apply(Unchecked(w), s.queue, e.p, o.value) else s.queue
    ensures |Step(w, s, e).claim.phases| == |s.claim.phases|
  {
    var t, phase := TaskOf(s.queue, e.p), s.claim.phases[e.p];
    match e
    case OnLock(p, stale) =>
      o := if !UsesLock(t) then None
           else if phase.Releasing? then Some(Ok) else Seen(t, OnLockStep(w, s, p, stale).claim.phases[p]);
    case Acts(_, outcome) => o := if outcome.Crash? || !UsesLock(t) then Some(outcome) else None;
  }

  lemma {:induction false} SoleRun(w: World, s: Desk, es: seq<Turn>)
    requires SoleInv(s.queue) && |s.claim.phases| <= 1
    ensures SoleInv(RunDesk(w, s, es).queue)
    decreases |es|
  {
    if es != [] {
      SoleTurn(w, s, es[0]);
      SoleRun(w, Step(w, s, es[0]), es[1..]);
    }
  }

  // ------------------------------------------------------------------ runs that break them

  lemma {:induction false} RunSnoc(w: World, s: Desk, es: seq<Turn>, e: Turn)
    ensures RunDesk(w, s, es + [e]) == Step(w, RunDesk(w, s, es), e)
    decreases |es|
  {
    if es == [] {
      assert [e][1..] == [];
    } else {
      assert (es + [e])[1..] == es[1..] + [e];
      RunSnoc(w, Step(w, s, es[0]), es[1..], e);
    }
  }

  lemma Then(w: World, q: Desk, es: seq<Turn>, s: Desk, e: Turn) returns (es': seq<Turn>, s': Desk)
    requires s == RunDesk(w, q, es)
    ensures s' == Step(w, s, e) && s' == RunDesk(w, q, es')
  {
    es', s' := es + [e], Step(w, s, e);
    RunSnoc(w, q, es, e);
  }

  lemma Acting(w: World, q: Desk, es: seq<Turn>, s: Desk, p: nat, o: Outcome) returns (es': seq<Turn>, s': Desk)
    requires s == RunDesk(w, q, es) && p < |s.claim.phases| && !o.Crash? && !UsesLock(TaskOf(s.queue, p))
    ensures s' == s.(queue := Apply(Unchecked(w), s.queue, p, o)) && s' == RunDesk(w, q, es')
  {
    es', s' := Then(w, q, es, s, Acts(p, o));
  }

  const FRESH := Record(Pending, 0, At(0), false)

  /** A check reads a due entry and is about to claim it. */
  lemma Asks(w: World, q: Desk, es: seq<Turn>, s: Desk, p: nat) returns (es': seq<Turn>, s': Desk)
    requires s == RunDesk(w, q, es) && p < |s.claim.phases| && p !in s.queue.tasks && s.queue.pending == Some(FRESH)
    ensures s' == s.(queue := With(s.queue, p, Claiming(0, false))) && s' == RunDesk(w, q, es')
  {
    var s1;
    es', s1 := Acting(w, q, es, s, p, StartCheck(0));
    es', s' := Acting(w, q, es', s1, p, Ok);
  }

  /** One operation of its acquisition. */
  lemma Operates(w: World, q: Desk, es: seq<Turn>, s: Desk, p: nat) returns (es': seq<Turn>, s': Desk)
    requires s == RunDesk(w, q, es) && p < |s.claim.phases| && TaskOf(s.queue, p) == Claiming(0, false)
    requires s.claim.phases[p].Idle? || s.claim.phases[p].Acquiring?
    ensures s' == RunDesk(w, q, es') && s'.claim == FileClaim.Step(s.claim, FileClaim.Proceed(p, true))
    ensures p < |s'.claim.phases| && (s'.claim.phases[p].Acquiring? ==> s'.queue == s.queue)
    ensures s'.claim.phases[p].Holding? ==> s'.queue == With(Claimed(s.queue), p, Rereading(0, s.queue.nextToken))
  {
    es', s' := Then(w, q, es, s, OnLock(p, true));
  }

  /** With the claim: it reads the record again and writes its attempt down. */
  lemma Marks(w: World, q: Desk, es: seq<Turn>, s: Desk, p: nat, token: nat) returns (es': seq<Turn>, s': Desk)
    requires s == RunDesk(w, q, es) && p < |s.claim.phases| && TaskOf(s.queue, p) == MarkingSending(token, FRESH)
    ensures s' == s.(queue := With(Write(s.queue, Attempted(FRESH)), p, Submitting(token, FRESH)))
            && s' == RunDesk(w, q, es')
  {
    es', s' := Acting(w, q, es, s, p, Ok);
  }

  lemma Rereads(w: World, q: Desk, es: seq<Turn>, s: Desk, p: nat, token: nat) returns (es': seq<Turn>, s': Desk)
    requires s == RunDesk(w, q, es) && p < |s.claim.phases| && TaskOf(s.queue, p) == Rereading(0, token)
    requires s.queue.pending == Some(FRESH)
    ensures s' == s.(queue := With(s.queue, p, MarkingSending(token, FRESH))) && s' == RunDesk(w, q, es')
  {
    es', s' := Acting(w, q, es, s, p, Ok);
  }

  lemma Submits(w: World, q: Desk, es: seq<Turn>, s: Desk, p: nat, token: nat) returns (es': seq<Turn>, s': Desk)
    requires s == RunDesk(w, q, es) && p < |s.claim.phases| && TaskOf(s.queue, p) == Submitting(token, FRESH)
    ensures s'.queue.submissions == s.queue.submissions + 1 && s'.queue.pending == s.queue.pending
            && s'.claim == s.claim
    ensures forall r | r != p :: TaskOf(s'.queue, r) == TaskOf(s.queue, r)
    ensures s' == RunDesk(w, q, es')
  {
    es', s' := Acting(w, q, es, s, p, AnswerLost);
  }

  /** The read before the claim fails. */
  lemma FailsToRead(w: World, q: Desk, p: nat) returns (es: seq<Turn>, s: Desk)
    requires w.firstReadMayFail && p < |q.claim.phases| && p !in q.queue.tasks && q.queue.pending == Some(FRESH)
    ensures s == q.(queue := With(q.queue, p, ReadingFailure(None))) && s == RunDesk(w, q, es)
  {
    var s1;
    es, s1 := Acting(w, q, [], q, p, StartCheck(0));
    assert TaskOf(s1.queue, p) == Reading(0);
    es, s := Acting(w, q, es, s1, p, Fail);
  }

  /** A failure note without the claim, read and not yet written. */
  lemma NotesUnclaimed(w: World, q: Desk, p: nat) returns (es: seq<Turn>, s: Desk)
    requires w.firstReadMayFail && p < |q.claim.phases| && p !in q.queue.tasks && q.queue.pending == Some(FRESH)
    ensures s == q.(queue := With(q.queue, p, WritingFailure(None, FRESH))) && s == RunDesk(w, q, es)
  {
    var s1;
    es, s1 := FailsToRead(w, q, p);
    assert TaskOf(s1.queue, p) == ReadingFailure(None);
    es, s := Acting(w, q, es, s1, p, Ok);
  }

  /** A whole attempt beside it, whose answer is lost. */
  lemma Attempts(w: World, q: Desk, es: seq<Turn>, s: Desk, p: nat) returns (es': seq<Turn>, s': Desk)
    requires s == RunDesk(w, q, es) && p < |s.claim.phases| && p !in s.queue.tasks && s.queue.pending == Some(FRESH)
    requires s.claim.lock.file.None? && s.claim.phases[p].Idle?
    ensures s' == RunDesk(w, q, es') && s'.queue.submissions == s.queue.submissions + 1
    ensures |s'.claim.phases| == |s.claim.phases| && forall r | r != p :: TaskOf(s'.queue, r) == TaskOf(s.queue, r)
  {
    var s1, s2, s3, s4;
    var token := s.queue.nextToken;
    es', s1 := Asks(w, q, es, s, p);
    es', s2 := Operates(w, q, es', s1, p);
    assert TaskOf(s2.queue, p) == Rereading(0, token);
    es', s3 := Rereads(w, q, es', s2, p, token);
    es', s4 := Marks(w, q, es', s3, p, token);
    es', s' := Submits(w, q, es', s4, p, token);
  }

  /** Written then, the note takes back an attempt that was submitted. */
  lemma StaleFailureUndoesAnAttempt(w: World, n: nat) returns (es: seq<Turn>)
    requires n >= 2 && w.firstReadMayFail
    ensures !Promised(RunDesk(w, Opened(n, false, At(0), false), es).queue)
  {
    var q := Opened(n, false, At(0), false);
    var s1, s2, s3;
    es, s1 := NotesUnclaimed(w, q, 0);
    es, s2 := Attempts(w, q, es, s1, 1);
    assert TaskOf(s1.queue, 0) == WritingFailure(None, FRESH);
    es, s3 := Acting(w, q, es, s2, 0, Ok);
  }

  /** Three checks are about to claim, a dead one's lock in their way. */
  lemma ThreeAsk(w: World, q: Desk, n: nat) returns (es: seq<Turn>, s: Desk)
    requires n >= 3 && q == Opened(n, true, At(0), false)
    ensures s == RunDesk(w, q, es) && s.claim == q.claim
    ensures s.queue == q.queue.(tasks := map[0 := Claiming(0, false), 1 := Claiming(0, false), 2 := Claiming(0, false)])
  {
    es, s := Asks(w, q, [], q, 0);
    es, s := Asks(w, q, es, s, 1);
    es, s := Asks(w, q, es, s, 2);
  }

  /** Two of them see the dead lock. */
  lemma TwoSeeTheDeadLock(w: World, q: Desk, es: seq<Turn>, s: Desk, n: nat) returns (es': seq<Turn>, s': Desk)
    requires s == RunDesk(w, q, es) && TaskOf(s.queue, 0) == TaskOf(s.queue, 1) == Claiming(0, false)
    requires FileClaim.Stands(s.claim, n, FileClaim.DEAD_LOCK, FileClaim.Idle, FileClaim.Idle, FileClaim.Idle)
    ensures s' == RunDesk(w, q, es') && s'.queue == s.queue
    ensures FileClaim.Stands(s'.claim, n, FileClaim.DEAD_LOCK,
                             FileClaim.Acquiring(Parking), FileClaim.Acquiring(Parking), FileClaim.Idle)
  {
    var s1, s2, s3;
    es', s1 := Operates(w, q, es, s, 0);
    es', s2 := Operates(w, q, es', s1, 0);
    assert FileClaim.Stands(s2.claim, n, FileClaim.DEAD_LOCK,
                            FileClaim.Acquiring(Parking), FileClaim.Idle, FileClaim.Idle);
    es', s3 := Operates(w, q, es', s2, 1);
    es', s' := Operates(w, q, es', s3, 1);
  }

  /** One takes it. */
  lemma OneTakesIt(w: World, q: Desk, es: seq<Turn>, s: Desk, n: nat) returns (es': seq<Turn>, s': Desk)
    requires s == RunDesk(w, q, es) && TaskOf(s.queue, 1) == Claiming(0, false)
    requires FileClaim.Stands(s.claim, n, FileClaim.DEAD_LOCK,
                              FileClaim.Acquiring(Parking), FileClaim.Acquiring(Parking), FileClaim.Idle)
    ensures s' == RunDesk(w, q, es') && s'.queue == With(Claimed(s.queue), 1, Rereading(0, s.queue.nextToken))
    ensures FileClaim.Stands(s'.claim, n, Lock(Some(File(1, 0)), 2),
                             FileClaim.Acquiring(Parking), FileClaim.Holding(1), FileClaim.Idle)
  {
    var s1;
    es', s1 := OneParksIt(w, q, es, s, n);
    es', s' := Operates(w, q, es', s1, 1);
  }

  lemma OneParksIt(w: World, q: Desk, es: seq<Turn>, s: Desk, n: nat) returns (es': seq<Turn>, s': Desk)
    requires s == RunDesk(w, q, es) && TaskOf(s.queue, 1) == Claiming(0, false)
    requires FileClaim.Stands(s.claim, n, FileClaim.DEAD_LOCK,
                              FileClaim.Acquiring(Parking), FileClaim.Acquiring(Parking), FileClaim.Idle)
    ensures s' == RunDesk(w, q, es') && s'.queue == s.queue
    ensures FileClaim.Stands(s'.claim, n, Lock(None, 1),
                             FileClaim.Acquiring(Parking), FileClaim.Acquiring(CreatingAfterPark), FileClaim.Idle)
  {
    var s1;
    es', s1 := Operates(w, q, es, s, 1);
    assert FileClaim.Stands(s1.claim, n, Lock(None, 1),
                            FileClaim.Acquiring(Parking), FileClaim.Acquiring(ReadingParkedAge(File(0, 0))),
                            FileClaim.Idle);
    es', s' := Operates(w, q, es', s1, 1);
  }

  /** The other renames that fresh lock away, and the third creates one. */
  lemma ThirdTakesItToo(w: World, q: Desk, es: seq<Turn>, s: Desk, n: nat) returns (es': seq<Turn>, s': Desk)
    requires s == RunDesk(w, q, es) && TaskOf(s.queue, 0) == TaskOf(s.queue, 2) == Claiming(0, false)
    requires FileClaim.Stands(s.claim, n, Lock(Some(File(1, 0)), 2),
                              FileClaim.Acquiring(Parking), FileClaim.Holding(1), FileClaim.Idle)
    ensures s' == RunDesk(w, q, es') && s'.queue == With(Claimed(s.queue), 2, Rereading(0, s.queue.nextToken))
    ensures |s'.claim.phases| == n
  {
    var s1;
    es', s1 := Operates(w, q, es, s, 0);
    es', s' := Operates(w, q, es', s1, 2);
  }

  /** Both hold the claim: two submissions on one attempt. */
  lemma TwoHoldersSubmitTwice(w: World, n: nat) returns (es: seq<Turn>)
    requires n >= 3
    ensures !Promised(RunDesk(w, Opened(n, true, At(0), false), es).queue)
  {
    var q := Opened(n, true, At(0), false);
    var s1, s2, s3, s4;
    es, s1 := ThreeAsk(w, q, n);
    es, s2 := TwoSeeTheDeadLock(w, q, es, s1, n);
    es, s3 := OneTakesIt(w, q, es, s2, n);
    es, s4 := ThirdTakesItToo(w, q, es, s3, n);
    es := BothSubmit(w, q, es, s4);
  }

  lemma BothSubmit(w: World, q: Desk, es: seq<Turn>, s: Desk) returns (es': seq<Turn>)
    requires s == RunDesk(w, q, es) && |s.claim.phases| >= 3 && s.queue.pending == Some(FRESH)
    requires TaskOf(s.queue, 1) == Rereading(0, 0) && TaskOf(s.queue, 2) == Rereading(0, 1)
    ensures !Promised(RunDesk(w, q, es').queue)
  {
    var s1, s2, s3, s4, s5, s6;
    es', s1 := Rereads(w, q, es, s, 1, 0);
    es', s2 := Rereads(w, q, es', s1, 2, 1);
    es', s3 := Marks(w, q, es', s2, 2, 1);
    es', s4 := Submits(w, q, es', s3, 2, 1);
    assert TaskOf(s4.queue, 1) == MarkingSending(0, FRESH);
    es', s5 := Marks(w, q, es', s4, 1, 0);
    es', s6 := Submits(w, q, es', s5, 1, 0);
    assert s6.queue.pending == Some(Attempted(FRESH)) && s6.queue.submissions >= 2;
  }
}
