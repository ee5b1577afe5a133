/**
 * The promises of the scheduled-send queue over every run, each with the exact world it needs:
 * the positive half from the invariants, the other half from a run that breaks it.
 */
module SchedulerTheorems {
  import opened Wrappers
  import opened SchedulerProtocol
  import opened SchedulerSafety

  // ------------------------------------------------------------------ the promises

  /** SMTP submissions stay within the attempts on disk, so within MAX_ATTEMPTS. */
  ghost predicate AlwaysBounded(w: World) {
    forall sendAt, draft, es :: Bounded(Run(w, Scheduled(sendAt, draft), es))
  }

  ghost predicate AlwaysInOnePlace(w: World) {
    forall sendAt, draft, es :: InOnePlace(Run(w, Scheduled(sendAt, draft), es))
  }

  /** Once the sent record or the move into sent/ succeeded, nothing submits the entry again. */
  ghost predicate DeliveryIsFinal(w: World) {
    forall sendAt, draft, es, fs ::
      var s := Run(w, Scheduled(sendAt, draft), es);
      DeliveryRecorded(s) ==> Run(w, s, fs).submissions == s.submissions
  }

  ghost predicate CancelIsFinal(w: World) {
    forall sendAt, draft, es, fs ::
      var s := Run(w, Scheduled(sendAt, draft), es);
      s.cancelled ==> Run(w, s, fs).submissions == s.submissions && Run(w, s, fs).pending.None?
  }

  /** The step that cancels removes a record that is pending at that moment. */
  ghost predicate CancelRemovesOnlyPending(w: World) {
    forall sendAt, draft, es, p, o ::
      var s := Run(w, Scheduled(sendAt, draft), es);
      Apply(w, s, p, o).cancelled && !s.cancelled ==> s.pending.Some? && s.pending.value.status.Pending?
  }

  // ------------------------------------------------------------------ when they hold

  lemma ReachableInv(w: World, sendAt: SendTime, draft: bool, es: seq<Event>)
    requires ClaimsHold(w)
    ensures Inv(Run(w, Scheduled(sendAt, draft), es))
  {
    ScheduledInv(sendAt, draft);
    RunKeepsInv(w, Scheduled(sendAt, draft), es);
  }

  lemma CancelStep(w: World, s: Queue, p: nat, o: Outcome)
    requires ClaimsHold(w) && TaskInv(s, TaskOf(s, p))
    requires Apply(w, s, p, o).cancelled && !s.cancelled
    ensures s.pending.Some? && s.pending.value.status.Pending?
  {
  }

  lemma SubmissionsWithinAttempts(w: World)
    ensures AlwaysBounded(w) <==> ClaimsHold(w)
  {
    if ClaimsHold(w) {
      forall sendAt, draft, es ensures Bounded(Run(w, Scheduled(sendAt, draft), es)) {
        ReachableInv(w, sendAt, draft, es);
      }
    } else if w.firstReadMayFail {
      var es := StaleFailureUndoesAnAttempt(w);
    } else {
      var es := LapsedClaimSubmitsTwice(w);
    }
  }

  lemma EntryInOnePlace(w: World)
    ensures AlwaysInOnePlace(w) <==> ClaimsHold(w)
  {
    if ClaimsHold(w) {
      forall sendAt, draft, es ensures InOnePlace(Run(w, Scheduled(sendAt, draft), es)) {
        ReachableInv(w, sendAt, draft, es);
      }
    } else {
      var es, fs := CancelUndone(w);
      RunAppend(w, Scheduled(At(0), false), es, fs);
    }
  }

  lemma CancelFinality(w: World)
    ensures CancelIsFinal(w) <==> ClaimsHold(w)
  {
    if ClaimsHold(w) {
      forall sendAt, draft, es, fs | Run(w, Scheduled(sendAt, draft), es).cancelled
        ensures var s := Run(w, Scheduled(sendAt, draft), es);
                Run(w, s, fs).submissions == s.submissions && Run(w, s, fs).pending.None?
      {
        ReachableInv(w, sendAt, draft, es);
        GoneStaysGone(w, Run(w, Scheduled(sendAt, draft), es), fs);
      }
    } else {
      var es, fs := CancelUndone(w);
    }
  }

  lemma CancelsOnlyPending(w: World)
    ensures CancelRemovesOnlyPending(w) <==> ClaimsHold(w)
  {
    if ClaimsHold(w) {
      forall sendAt, draft, es, p, o
        ensures var s := Run(w, Scheduled(sendAt, draft), es);
                Apply(w, s, p, o).cancelled && !s.cancelled ==> s.pending.Some? && s.pending.value.status.Pending?
      {
        ReachableInv(w, sendAt, draft, es);
        var s := Run(w, Scheduled(sendAt, draft), es);
        if Apply(w, s, p, o).cancelled && !s.cancelled {
          CancelStep(w, s, p, o);
        }
      }
    } else if w.liveClaimMayLapse {
      var es := LapsedClaimCancelsSending(w);
    } else {
      var es := StaleFailureCancelsFailed(w);
    }
  }

  lemma DeliveryFinality(w: World)
    ensures DeliveryIsFinal(w) <==> ReadsHold(w)
  {
    if ReadsHold(w) {
      forall sendAt, draft, es, fs | DeliveryRecorded(Run(w, Scheduled(sendAt, draft), es))
        ensures var s := Run(w, Scheduled(sendAt, draft), es);
                Run(w, s, fs).submissions == s.submissions
      {
        var q := Scheduled(sendAt, draft);
        ScheduledInv(sendAt, draft);
        RunKeepsInv(w, q, es);
        RunKeepsFailuresLive(w, q, es);
        FinalStaysFinal(w, Run(w, q, es), fs);
      }
    } else {
      var es, fs := DeliverySentAgain(w);
    }
  }

  // ------------------------------------------------------------------ runs that break them

  /** One more event at the end of a run. */
  lemma Then(w: World, q: Queue, es: seq<Event>, s: Queue, p: nat, o: Outcome) returns (es': seq<Event>, s': Queue)
    requires s == Run(w, q, es)
    ensures es' == es + [Event(p, o)] && s' == Apply(w, s, p, o) && s' == Run(w, q, es')
  {
    es', s' := es + [Event(p, o)], Apply(w, s, p, o);
    RunAppend(w, q, es, [Event(p, o)]);
    assert [Event(p, o)][1..] == [];
  }

  lemma StillClaimable(w: World, s: Queue, p: nat, t: Task)
    requires CanClaim(w, s) && p !in s.tasks && HeldToken(t).None?
    ensures CanClaim(w, With(s, p, t))
  {
    var s' := With(s, p, t);
    if s.lock.Some? && HasLiveHolder(s', s.lock.value) {
      var r :| r in s'.tasks && HeldToken(s'.tasks[r]) == Some(s.lock.value);
      assert HeldToken(s.tasks[r]) == Some(s.lock.value);
    }
  }

  /** A cancel reads a pending entry, claims it, reads it again and is about to remove it. */
  lemma UpToUnlinking(w: World, q: Queue, es: seq<Event>, s: Queue, p: nat) returns (es': seq<Event>, s': Queue)
    requires s == Run(w, q, es) && p !in s.tasks && CanClaim(w, s)
    requires s.pending.Some? && s.pending.value.status.Pending? && !s.pending.value.hasDraft
    ensures s' == With(Claimed(s), p, Unlinking(s.nextToken)) && s' == Run(w, q, es')
  {
    var s1, s2;
    es', s1 := UpToCancelClaiming(w, q, es, s, p);
    es', s2 := Then(w, q, es', s1, p, Ok);
    assert s2 == With(Claimed(s), p, CancelRereading(s.nextToken));
    es', s' := Then(w, q, es', s2, p, Ok);
  }

  lemma UpToCancelClaiming(w: World, q: Queue, es: seq<Event>, s: Queue, p: nat) returns (es': seq<Event>, s': Queue)
    requires s == Run(w, q, es) && p !in s.tasks && CanClaim(w, s)
    requires s.pending.Some? && s.pending.value.status.Pending?
    ensures s' == With(s, p, CancelClaiming) && CanClaim(w, s') && s' == Run(w, q, es')
  {
    var s1;
    es', s1 := Then(w, q, es, s, p, StartCancel);
    es', s' := Then(w, q, es', s1, p, Ok);
    assert s' == With(s, p, CancelClaiming);
    StillClaimable(w, s, p, CancelClaiming);
  }

  /** A check gets its message accepted and writes the sent record. */
  lemma UpToMoving(w: World, q: Queue, es: seq<Event>, s: Queue, p: nat) returns (es': seq<Event>, s': Queue)
    requires s == Run(w, q, es) && p !in s.tasks && CanClaim(w, s)
    requires IsLive(s.pending) && s.pending.value.sendAt == At(0) && s.pending.value.attempts < MAX_ATTEMPTS
    ensures var r := Attempted(s.pending.value);
            s' == With(Write(Claimed(s), r.(status := Sent)).(submissions := s.submissions + 1), p,
                       Moving(s.nextToken, r))
    ensures s' == Run(w, q, es')
  {
    var s1, s2;
    es', s1 := UpToSubmitting(w, q, es, s, p);
    es', s2 := Then(w, q, es', s1, p, Accepted);
    es', s' := Then(w, q, es', s2, p, Ok);
  }

  /** A whole check that delivers: the sent record is written, the move into sent/ fails. */
  lemma DeliverUnmoved(w: World, q: Queue, es: seq<Event>, s: Queue, p: nat) returns (es': seq<Event>, s': Queue)
    requires s == Run(w, q, es) && p !in s.tasks && CanClaim(w, s)
    requires IsLive(s.pending) && s.pending.value.sendAt == At(0) && s.pending.value.attempts < MAX_ATTEMPTS
    requires !s.pending.value.hasDraft
    ensures s' == s.(pending := Some(Attempted(s.pending.value).(status := Sent)), lock := None,
                     nextToken := s.nextToken + 1, submissions := s.submissions + 1)
    ensures s' == Run(w, q, es')
  {
    var s1, s2;
    es', s1 := UpToMoving(w, q, es, s, p);
    es', s2 := Then(w, q, es', s1, p, Fail);
    es', s' := Then(w, q, es', s2, p, Ok);
    assert s'.tasks == s.tasks;
  }

  /** A check whose process dies once the attempt is written down. */
  lemma AttemptAndCrash(w: World, q: Queue, es: seq<Event>, s: Queue, p: nat) returns (es': seq<Event>, s': Queue)
    requires s == Run(w, q, es) && p !in s.tasks && CanClaim(w, s)
    requires IsLive(s.pending) && s.pending.value.sendAt == At(0) && s.pending.value.attempts < MAX_ATTEMPTS
    requires forall r | r in s.tasks :: HeldToken(s.tasks[r]).None?
    ensures s' == With(Write(Claimed(s), Attempted(s.pending.value)), p, Crashed) && CanClaim(w, s')
    ensures s' == Run(w, q, es')
    ensures forall r | r in s'.tasks :: HeldToken(s'.tasks[r]).None?
  {
    var s1;
    es', s1 := UpToSubmitting(w, q, es, s, p);
    es', s' := Then(w, q, es', s1, p, Crash);
    assert s' == With(Write(Claimed(s), Attempted(s.pending.value)), p, Crashed);
  }

  lemma UpToClaimed(w: World, q: Queue, es: seq<Event>, s: Queue, p: nat) returns (es': seq<Event>, s': Queue)
    requires s == Run(w, q, es) && p !in s.tasks && CanClaim(w, s)
    requires IsLive(s.pending) && s.pending.value.sendAt == At(0)
    ensures s' == With(Claimed(s), p, Rereading(0, s.nextToken)) && s' == Run(w, q, es')
  {
    var s1, s2;
    es', s1 := Then(w, q, es, s, p, StartCheck(0));
    es', s2 := Then(w, q, es', s1, p, Ok);
    assert s2 == With(s, p, Claiming(0, false));
    StillClaimable(w, s, p, Claiming(0, false));
    es', s' := Then(w, q, es', s2, p, Ok);
  }

  /** A check reads a due entry, claims it and reads it again. */
  lemma UpToMarking(w: World, q: Queue, es: seq<Event>, s: Queue, p: nat) returns (es': seq<Event>, s': Queue)
    requires s == Run(w, q, es) && p !in s.tasks && CanClaim(w, s)
    requires IsLive(s.pending) && s.pending.value.sendAt == At(0) && s.pending.value.attempts < MAX_ATTEMPTS
    ensures s' == With(Claimed(s), p, MarkingSending(s.nextToken, s.pending.value)) && s' == Run(w, q, es')
  {
    var s1;
    es', s1 := UpToClaimed(w, q, es, s, p);
    es', s' := Then(w, q, es', s1, p, Ok);
  }

  /** Then it writes the attempt down and is about to hand the message to SMTP. */
  lemma UpToSubmitting(w: World, q: Queue, es: seq<Event>, s: Queue, p: nat) returns (es': seq<Event>, s': Queue)
    requires s == Run(w, q, es) && p !in s.tasks && CanClaim(w, s)
    requires IsLive(s.pending) && s.pending.value.sendAt == At(0) && s.pending.value.attempts < MAX_ATTEMPTS
    ensures s' == With(Write(Claimed(s), Attempted(s.pending.value)), p, Submitting(s.nextToken, s.pending.value))
    ensures s' == Run(w, q, es')
  {
    var s1;
    es', s1 := UpToMarking(w, q, es, s, p);
    es', s' := Then(w, q, es', s1, p, Ok);
  }

  /** Its first read failed; it read the entry for its failure note and is about to write that back, unclaimed. */
  lemma StaleFailure(w: World, q: Queue, es: seq<Event>, s: Queue, p: nat) returns (es': seq<Event>, s': Queue)
    requires s == Run(w, q, es) && p !in s.tasks && w.firstReadMayFail && s.pending.Some?
    ensures s' == With(s, p, WritingFailure(None, AfterFailure(s.pending.value))) && s' == Run(w, q, es')
  {
    var s1, s2;
    es', s1 := Then(w, q, es, s, p, StartCheck(0));
    es', s2 := Then(w, q, es', s1, p, Fail);
    assert s2 == With(s, p, ReadingFailure(None));
    es', s' := Then(w, q, es', s2, p, Ok);
  }

  lemma StaleFailureUndoesAnAttempt(w: World) returns (es: seq<Event>)
    requires w.firstReadMayFail
    ensures !Bounded(Run(w, Scheduled(At(0), false), es))
  {
    var q := Scheduled(At(0), false);
    var s;
    es, s := StaleFailure(w, q, [], q, 1);
    es, s := UpToSubmitting(w, q, es, s, 2);
    es, s := Then(w, q, es, s, 2, AnswerLost);
    es, s := Then(w, q, es, s, 1, Ok);
  }

  lemma LapsedClaimSubmitsTwice(w: World) returns (es: seq<Event>)
    requires w.liveClaimMayLapse
    ensures !Bounded(Run(w, Scheduled(At(0), false), es))
  {
    var q := Scheduled(At(0), false);
    var s;
    es, s := UpToMarking(w, q, [], q, 1);
    es, s := UpToSubmitting(w, q, es, s, 2);
    es, s := Then(w, q, es, s, 2, AnswerLost);
    es, s := Then(w, q, es, s, 1, Ok);
    es, s := Then(w, q, es, s, 1, AnswerLost);
  }

  /** A task whose next step writes the entry as it was at the start, whoever holds the claim by then. */
  lemma WriteUnderWay(w: World, q: Queue) returns (es: seq<Event>, s: Queue)
    requires !ClaimsHold(w) && q == Scheduled(At(0), false)
    ensures s == Run(w, q, es) && CanClaim(w, s) && s.pending == q.pending && s.sent.None? && !s.cancelled
            && s.tasks.Keys == {1}
    ensures s.tasks[1] == WritingFailure(None, q.pending.value) || s.tasks[1] == MarkingSending(0, q.pending.value)
  {
    if w.firstReadMayFail {
      es, s := StaleFailure(w, q, [], q, 1);
    } else {
      es, s := UpToMarking(w, q, [], q, 1);
    }
  }

  /** A cancel succeeds, and a task that was under way writes the file again. */
  lemma CancelUndone(w: World) returns (es: seq<Event>, fs: seq<Event>)
    requires !ClaimsHold(w)
    ensures var s := Run(w, Scheduled(At(0), false), es);
            var s' := Run(w, s, fs);
            s.cancelled && s'.pending.Some? && !InOnePlace(s')
  {
    var q := Scheduled(At(0), false);
    var s, s1, s2, s3;
    es, s := WriteUnderWay(w, q);
    es, s1 := UpToUnlinking(w, q, es, s, 2);
    es, s2 := Then(w, q, es, s1, 2, Ok);
    assert s2.cancelled && TaskOf(s2, 1) == TaskOf(s, 1);
    fs, s3 := Then(w, s2, [], s2, 1, Ok);
  }

  /** A delivery is recorded as sent, its move fails, a task that was under way undoes the record: it is sent again. */
  lemma DeliverySentAgain(w: World) returns (es: seq<Event>, fs: seq<Event>)
    requires !ReadsHold(w)
    ensures var s := Run(w, Scheduled(At(0), false), es);
            DeliveryRecorded(s) && Run(w, s, fs).submissions > s.submissions
  {
    var q := Scheduled(At(0), false);
    var s, s1;
    if ClaimsHold(w) {
      es, s := Then(w, q, [], q, 1, StartCheck(0));
      es, s := Then(w, q, es, s, 1, Ok);
      assert s == With(q, 1, Claiming(0, false));
      es, s1 := DeliverUnmoved(w, q, es, s, 2);
      fs := FailedRereadSendsAgain(w, s1);
    } else {
      es, s := WriteUnderWay(w, q);
      es, s1 := DeliverUnmoved(w, q, es, s, 2);
      fs := StaleWriteSendsAgain(w, s1);
    }
  }

  /** The write that was under way puts the entry back as it was before the delivery. */
  lemma StaleWriteSendsAgain(w: World, s: Queue) returns (fs: seq<Event>)
    requires s.lock.None? && s.tasks.Keys == {1}
    requires var r := Record(Pending, 0, At(0), false);
             s.tasks[1] == WritingFailure(None, r) || s.tasks[1] == MarkingSending(0, r)
    ensures Run(w, s, fs).submissions > s.submissions
  {
    var s1, s2;
    fs, s1 := Then(w, s, [], s, 1, Ok);
    if s.tasks[1].WritingFailure? {
      fs := SendsAgain(w, s, fs, s1);
    } else {
      fs, s2 := Then(w, s, fs, s1, 1, Accepted);
    }
  }

  /**
   * The claim is held throughout: a stale check's read under the claim fails, and writeSendFailure,
   * whose own read succeeds, turns the sent record back into a pending one.
   */
  lemma FailedRereadSendsAgain(w: World, s: Queue) returns (fs: seq<Event>)
    requires w.rereadMayFail && CanClaim(w, s) && s.tasks == map[1 := Claiming(0, false)]
    requires s.pending == Some(Record(Sent, 1, At(0), false)) && s.sent.None?
    ensures Run(w, s, fs).submissions > s.submissions
  {
    var s1, s2, s3;
    fs, s1 := Then(w, s, [], s, 1, Ok);
    assert s1 == With(Claimed(s), 1, Rereading(0, s.nextToken));
    fs, s2 := Then(w, s, fs, s1, 1, Fail);
    assert s2 == With(Claimed(s), 1, ReadingFailure(Some(s.nextToken)));
    fs, s3 := WriteFailureBack(w, s, fs, s2);
    fs := SendsAgain(w, s, fs, s3);
  }

  lemma WriteFailureBack(w: World, q: Queue, es: seq<Event>, s: Queue) returns (es': seq<Event>, s': Queue)
    requires s == Run(w, q, es) && s.lock.Some? && s.tasks == map[1 := ReadingFailure(s.lock)]
    requires s.pending == Some(Record(Sent, 1, At(0), false))
    ensures s' == Run(w, q, es')
    ensures s' == s.(pending := Some(Record(Pending, 1, At(0), false)), lock := None, tasks := map[])
  {
    var s1, s2;
    es', s1 := Then(w, q, es, s, 1, Ok);
    es', s2 := Then(w, q, es', s1, 1, Ok);
    es', s' := Then(w, q, es', s2, 1, Ok);
  }

  lemma SendsAgain(w: World, q: Queue, es: seq<Event>, s: Queue) returns (fs: seq<Event>)
    requires s == Run(w, q, es) && s.lock.None? && 3 !in s.tasks
    requires IsLive(s.pending) && s.pending.value.sendAt == At(0) && s.pending.value.attempts < MAX_ATTEMPTS
    ensures Run(w, q, fs).submissions > s.submissions
  {
    var s1, s2;
    fs, s1 := UpToSubmitting(w, q, es, s, 3);
    fs, s2 := Then(w, q, fs, s1, 3, AnswerLost);
  }

  lemma LapsedClaimCancelsSending(w: World) returns (es: seq<Event>)
    requires w.liveClaimMayLapse
    ensures var s := Run(w, Scheduled(At(0), false), es);
            !s.cancelled && s.pending.Some? && s.pending.value.status.Sending? && Apply(w, s, 2, Ok).cancelled
  {
    var q := Scheduled(At(0), false);
    var s, s1, s2;
    es, s := UpToMarking(w, q, [], q, 1);
    es, s1 := UpToUnlinking(w, q, es, s, 2);
    es, s2 := Then(w, q, es, s1, 1, Ok);
    assert TaskOf(s2, 2).Unlinking?;
  }

  /** Three checks die after writing their attempt down: the entry is used up, its claim stale. */
  lemma UseUp(w: World, q: Queue, es: seq<Event>, s: Queue) returns (es': seq<Event>, s': Queue)
    requires s == Run(w, q, es) && CanClaim(w, s) && forall r | r in s.tasks :: HeldToken(s.tasks[r]).None? && r < 3
    requires s.pending == Some(Record(Pending, 0, At(0), false))
    ensures s' == Run(w, q, es') && CanClaim(w, s') && s'.cancelled == s.cancelled
    ensures s'.pending == Some(Record(Sending, 3, At(0), false))
    ensures s'.tasks == s.tasks[3 := Crashed][4 := Crashed][5 := Crashed]
  {
    var s1, s2;
    es', s1 := AttemptAndCrash(w, q, es, s, 3);
    es', s2 := AttemptAndCrash(w, q, es', s1, 4);
    es', s' := AttemptAndCrash(w, q, es', s2, 5);
  }

  /** Two stale failure notes: one makes a used-up entry look fresh to a cancel, the other marks it failed. */
  lemma StaleFailureCancelsFailed(w: World) returns (es: seq<Event>)
    requires w.firstReadMayFail
    ensures var s := Run(w, Scheduled(At(0), false), es);
            !s.cancelled && s.pending.Some? && s.pending.value.status.Failed? && Apply(w, s, 2, Ok).cancelled
  {
    var q := Scheduled(At(0), false);
    var s, s1, s2;
    es, s := TwoStaleFailures(w, q);
    es, s1 := UpToUnlinking(w, q, es, s, 2);
    es, s2 := Then(w, q, es, s1, 6, Ok);
    assert TaskOf(s2, 2).Unlinking?;
  }

  lemma TwoStaleFailures(w: World, q: Queue) returns (es: seq<Event>, s: Queue)
    requires w.firstReadMayFail && q == Scheduled(At(0), false)
    ensures s == Run(w, q, es) && CanClaim(w, s) && !s.cancelled && 2 !in s.tasks
    ensures s.pending == Some(Record(Pending, 0, At(0), false))
    ensures TaskOf(s, 6) == WritingFailure(None, Record(Failed, 3, At(0), false))
  {
    var s0, s1, s2;
    es, s0 := StaleFailure(w, q, [], q, 1);
    es, s1 := UseUp(w, q, es, s0);
    StillClaimable(w, s1, 6, WritingFailure(None, Record(Failed, 3, At(0), false)));
    es, s2 := StaleFailure(w, q, es, s1, 6);
    es, s := Then(w, q, es, s2, 1, Ok);
    assert s == With(Write(s2, Record(Pending, 0, At(0), false)), 1, Idle);
    if s.lock.Some? && HasLiveHolder(s, s.lock.value) {
      var r :| r in s.tasks && HeldToken(s.tasks[r]) == Some(s.lock.value);
      assert HeldToken(s2.tasks[r]) == Some(s.lock.value);
    }
  }

  /** With neither the sent record nor the move, the entry stays due in every world: at least once, not exactly once. */
  lemma UnrecordedDeliveryIsSentAgain(w: World) returns (es: seq<Event>)
    ensures Run(w, Scheduled(At(0), false), es).submissions > 1
  {
    var q := Scheduled(At(0), false);
    var s1, s2;
    es, s1 := UpToSubmitting(w, q, [], q, 1);
    es, s2 := LoseBothRecords(w, q, es, s1);
    es := SendsAgain(w, q, es, s2);
  }

  lemma LoseBothRecords(w: World, q: Queue, es: seq<Event>, s: Queue) returns (es': seq<Event>, s': Queue)
    requires s == Run(w, q, es) && s.tasks == map[1 := Submitting(0, Record(Pending, 0, At(0), false))]
             && s.lock == Some(0)
    ensures s' == Run(w, q, es') && s' == s.(lock := None, tasks := map[], submissions := s.submissions + 1)
  {
    var r := Record(Sending, 1, At(0), false);
    var s2, s3;
    es', s2 := Then(w, q, es, s, 1, Accepted);
    assert s2 == s.(tasks := map[1 := RecordingSent(0, r)], submissions := s.submissions + 1);
    es', s3 := Then(w, q, es', s2, 1, Fail);
    assert s3 == s2.(tasks := map[1 := Moving(0, r)]);
    es', s' := LoseMove(w, q, es', s3, r);
  }

  lemma LoseMove(w: World, q: Queue, es: seq<Event>, s: Queue, r: Record) returns (es': seq<Event>, s': Queue)
    requires s == Run(w, q, es) && s.tasks == map[1 := Moving(0, r)] && !r.hasDraft && s.lock == Some(0)
    ensures s' == Run(w, q, es') && s' == s.(lock := None, tasks := map[])
  {
    var s1;
    es', s1 := Then(w, q, es, s, 1, Fail);
    assert s1 == s.(tasks := map[1 := Releasing(0)]);
    es', s' := Then(w, q, es', s1, 1, Ok);
  }
}
