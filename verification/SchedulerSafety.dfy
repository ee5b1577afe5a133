/**
 * What every run of the scheduled-send queue keeps, over any interleaving of checks, cancels,
 * failures and crashes, and exactly which misbehaviour of the world breaks it.
 */
module SchedulerSafety {
  import opened Wrappers
  import opened SchedulerProtocol

  /** What must hold of the files while a task stands at a step. */
  ghost predicate TaskInv(s: Queue, t: Task) {
    match t
    case GivingUp(_, exhausted) =>
      s.pending == Some(exhausted) && exhausted.attempts >= MAX_ATTEMPTS && IsLive(s.pending)
    case MarkingSending(_, queued) =>
      && s.pending == Some(queued) && IsLive(s.pending)
      && queued.attempts < MAX_ATTEMPTS && s.submissions <= queued.attempts
    case Submitting(_, queued) =>
      && s.pending == Some(Attempted(queued)) && IsLive(Some(queued))
      && queued.attempts < MAX_ATTEMPTS && s.submissions <= queued.attempts
    case Restoring(_, queued) =>
      && s.pending == Some(Attempted(queued)) && IsLive(Some(queued))
      && queued.attempts < MAX_ATTEMPTS && s.submissions <= queued.attempts
    case RecordingSent(_, sending) => s.pending == Some(sending) && sending.status.Sending?
    case Moving(_, sending) => s.pending == Some(sending) || s.pending == Some(sending.(status := Sent))
    case ReadingFailure(None) => s.pending.None?
    case WritingFailure(claim, failed) =>
      claim.Some? && s.pending.Some? && failed == AfterFailure(s.pending.value)
    case CancelDroppingDraft(_) => s.pending.Some? && s.pending.value.status.Pending?
    case Unlinking(_) => s.pending.Some? && s.pending.value.status.Pending?
    case _ => true
  }

  predicate IsLive(r: Option<Record>) {
    r.Some? && (r.value.status.Pending? || r.value.status.Sending?)
  }

  /** Submissions never exceed the attempts on disk, and those never exceed the cap. */
  predicate Bounded(s: Queue) {
    && (s.pending.Some? ==> s.submissions <= s.pending.value.attempts <= MAX_ATTEMPTS)
    && (s.sent.Some? ==> s.submissions <= s.sent.value.attempts <= MAX_ATTEMPTS)
    && s.submissions <= MAX_ATTEMPTS
  }

  /** Pending file, file in sent/, or cancelled: one of them, never two. */
  predicate InOnePlace(s: Queue) {
    (if s.pending.Some? then 1 else 0) + (if s.sent.Some? then 1 else 0) + (if s.cancelled then 1 else 0) == 1
  }

  /** Only an entry that used every attempt is marked failed. */
  predicate FailedIsExhausted(s: Queue) {
    s.pending.Some? && s.pending.value.status.Failed? ==> s.pending.value.attempts >= MAX_ATTEMPTS
  }

  ghost predicate ClaimsExclusive(s: Queue) {
    && (s.lock.Some? ==> s.lock.value < s.nextToken)
    && (forall p | p in s.tasks && HeldToken(s.tasks[p]).Some? :: s.lock == HeldToken(s.tasks[p]))
    && (forall p, q | p in s.tasks && q in s.tasks && HeldToken(s.tasks[p]).Some? && HeldToken(s.tasks[q]).Some? ::
        p == q)
  }

  ghost predicate Inv(s: Queue) {
    && ClaimsExclusive(s)
    && (forall p | p in s.tasks :: TaskInv(s, s.tasks[p]))
    && Bounded(s)
    && InOnePlace(s)
    && FailedIsExhausted(s)
  }

  predicate ClaimsHold(w: World) {
    !w.firstReadMayFail && !w.liveClaimMayLapse
  }

  /** A task without the claim moves on and leaves the files alone. */
  lemma StepUnclaimed(s: Queue, p: nat, t: Task)
    requires Inv(s) && HeldToken(t).None? && TaskInv(s, t)
    ensures Inv(With(s, p, t))
  {
  }

  /** The claim was free or its holder gone, so no task carries a token when a new one is made. */
  lemma StepClaim(w: World, s: Queue, p: nat, t: Task)
    requires Inv(s) && !w.liveClaimMayLapse && CanClaim(w, s)
    requires HeldToken(t) == Some(s.nextToken) && TaskInv(Claimed(s), t)
    ensures Inv(With(Claimed(s), p, t))
  {
    forall q | q in s.tasks ensures HeldToken(s.tasks[q]).None? {
      if HeldToken(s.tasks[q]).Some? {
        assert HasLiveHolder(s, s.lock.value);
      }
    }
  }

  /** The holder may rewrite the files: every other task stands at a step that says nothing of them. */
  lemma StepClaimed(s: Queue, p: nat, files: Queue, t: Task)
    requires Inv(s) && p in s.tasks && HeldToken(s.tasks[p]).Some?
    requires files.lock == s.lock && files.nextToken == s.nextToken && files.tasks == s.tasks
    requires HeldToken(t) == HeldToken(s.tasks[p])
    requires s.pending.None? ==> files.pending.None?
    requires TaskInv(files, t) && Bounded(files) && InOnePlace(files) && FailedIsExhausted(files)
    ensures Inv(With(files, p, t))
  {
  }

  lemma StepRelease(s: Queue, p: nat, freed: Option<nat>)
    requires Inv(s) && p in s.tasks && HeldToken(s.tasks[p]).Some?
    requires freed == s.lock || freed == None
    ensures Inv(With(s.(lock := freed), p, Idle))
  {
  }

  /** One step of the claim's holder, seen from the files alone. */
  lemma HolderStep(w: World, s: Queue, t: Task, o: Outcome)
    requires HeldToken(t).Some? && TaskInv(s, t)
    requires Bounded(s) && InOnePlace(s) && FailedIsExhausted(s)
    ensures var s', t' := FilesAfter(w, s, t, o), TaskAfter(w, s, t, o);
            && TaskInv(s', t') && Bounded(s') && InOnePlace(s') && FailedIsExhausted(s')
            && s'.nextToken == s.nextToken && s'.tasks == s.tasks
            && (s.pending.None? ==> s'.pending.None?)
            && (if HeldToken(t').Some? then HeldToken(t') == HeldToken(t) && s'.lock == s.lock
                else t'.Idle? && s'.(lock := s.lock) == s && (s'.lock == s.lock || s'.lock == None))
  {
  }

  lemma UnclaimedStep(w: World, s: Queue, t: Task, o: Outcome)
    requires ClaimsHold(w) && HeldToken(t).None? && TaskInv(s, t)
    ensures var s', t' := FilesAfter(w, s, t, o), TaskAfter(w, s, t, o);
            || (s' == s && HeldToken(t').None? && TaskInv(s, t'))
            || (CanClaim(w, s) && s' == Claimed(s) && HeldToken(t') == Some(s.nextToken) && TaskInv(s', t'))
  {
  }

  lemma ApplyKeepsInv(w: World, s: Queue, p: nat, o: Outcome)
    requires ClaimsHold(w) && Inv(s)
    ensures Inv(Apply(w, s, p, o))
  {
    var t := TaskOf(s, p);
    if o.Crash? {
      StepUnclaimed(s, p, Crashed);
    } else if o.StartCheck? || o.StartCancel? {
      StepStart(s, p, if o.StartCheck? then Reading(o.now) else CancelReading);
    } else {
      var s', t' := FilesAfter(w, s, t, o), TaskAfter(w, s, t, o);
      if HeldToken(t).None? {
        UnclaimedStep(w, s, t, o);
        if HeldToken(t').None? {
          StepUnclaimed(s, p, t');
        } else {
          StepClaim(w, s, p, t');
        }
      } else {
        HolderStep(w, s, t, o);
        if HeldToken(t').None? {
          StepRelease(s, p, s'.lock);
        } else {
          StepClaimed(s, p, s', t');
        }
      }
    }
  }

  lemma StepStart(s: Queue, p: nat, t: Task)
    requires Inv(s) && HeldToken(t).None? && TaskInv(s, t)
    ensures Inv(With(s, p, if TaskOf(s, p).Idle? then t else TaskOf(s, p)))
  {
    if TaskOf(s, p).Idle? {
      StepUnclaimed(s, p, t);
    } else {
      assert With(s, p, TaskOf(s, p)) == s;
    }
  }

  /** Only a rate-limit deferral takes an attempt back, and that attempt submitted nothing. */
  lemma OnlyDeferralLowersAttempts(w: World, s: Queue, p: nat, o: Outcome)
    requires ClaimsHold(w) && Inv(s)
    requires s.pending.Some? && Apply(w, s, p, o).pending.Some?
    requires Apply(w, s, p, o).pending.value.attempts < s.pending.value.attempts
    ensures TaskOf(s, p).Restoring? && s.submissions <= Apply(w, s, p, o).pending.value.attempts
  {
    LoweringStep(w, s, TaskOf(s, p), o);
  }

  lemma LoweringStep(w: World, s: Queue, t: Task, o: Outcome)
    requires TaskInv(s, t) && s.pending.Some?
    ensures var s' := FilesAfter(w, s, t, o);
            s'.pending.Some? && s'.pending.value.attempts < s.pending.value.attempts ==>
              t.Restoring? && s.submissions <= s'.pending.value.attempts
  {
  }

  lemma ScheduledInv(sendAt: SendTime, hasDraft: bool)
    ensures Inv(Scheduled(sendAt, hasDraft))
  {
  }

  lemma {:induction false} RunKeepsInv(w: World, s: Queue, es: seq<Event>)
    requires ClaimsHold(w) && Inv(s)
    ensures Inv(Run(w, s, es))
    decreases |es|
  {
    if es != [] {
      ApplyKeepsInv(w, s, es[0].task, es[0].outcome);
      RunKeepsInv(w, Apply(w, s, es[0].task, es[0].outcome), es[1..]);
    }
  }

  // ------------------------------------------------------------------ what is final

  /** SMTP took it and at least one of the two records of that succeeded. */
  predicate DeliveryRecorded(s: Queue) {
    s.sent.Some? || (s.pending.Some? && s.pending.value.status.Sent?)
  }

  /** No step of any task sends again or brings the entry back. */
  predicate Final(s: Queue) {
    s.pending.None? || s.pending.value.status.Sent? || s.pending.value.status.Failed?
  }

  predicate WritesFailureBack(t: Task) {
    t.WritingFailure? || (t.ReadingFailure? && t.claim.Some?)
  }

  /** A failure is written back only over an entry still waiting or being sent. */
  ghost predicate FailuresAreLive(s: Queue) {
    forall p | p in s.tasks && WritesFailureBack(s.tasks[p]) :: IsLive(s.pending)
  }

  predicate ReadsHold(w: World) {
    ClaimsHold(w) && !w.rereadMayFail
  }

  lemma FailureStep(w: World, s: Queue, t: Task, o: Outcome)
    requires ReadsHold(w) && TaskInv(s, t) && (WritesFailureBack(t) ==> IsLive(s.pending))
    ensures var s', t' := FilesAfter(w, s, t, o), TaskAfter(w, s, t, o);
            && (WritesFailureBack(t') ==> IsLive(s'.pending))
            && (HeldToken(t).None? ==> s'.pending == s.pending)
            && s'.tasks == s.tasks
  {
  }

  lemma FailuresLiveAfter(s: Queue, p: nat, s': Queue, t: Task)
    requires Inv(s) && FailuresAreLive(s) && s'.tasks == s.tasks
    requires WritesFailureBack(t) ==> IsLive(s'.pending)
    requires HeldToken(TaskOf(s, p)).None? ==> s'.pending == s.pending
    ensures FailuresAreLive(With(s', p, t))
  {
    var after := With(s', p, t);
    forall q | q in after.tasks && WritesFailureBack(after.tasks[q]) ensures IsLive(after.pending) {
      if q != p {
        assert after.tasks[q] == s.tasks[q] && HeldToken(s.tasks[q]).Some?;
      }
    }
  }

  lemma ApplyKeepsFailuresLive(w: World, s: Queue, p: nat, o: Outcome)
    requires ReadsHold(w) && Inv(s) && FailuresAreLive(s)
    ensures FailuresAreLive(Apply(w, s, p, o))
  {
    var t := TaskOf(s, p);
    if o.Crash? {
      FailuresLiveAfter(s, p, s, Crashed);
    } else if o.StartCheck? || o.StartCancel? {
      FailuresLiveAfter(s, p, s, if !t.Idle? then t else if o.StartCheck? then Reading(o.now) else CancelReading);
    } else {
      FailureStep(w, s, t, o);
      FailuresLiveAfter(s, p, FilesAfter(w, s, t, o), TaskAfter(w, s, t, o));
    }
  }

  lemma GoneStep(w: World, s: Queue, t: Task, o: Outcome)
    requires TaskInv(s, t) && s.pending.None?
    ensures var s' := FilesAfter(w, s, t, o);
            s'.pending.None? && s'.sent == s.sent && s'.cancelled == s.cancelled && s'.submissions == s.submissions
  {
  }

  lemma FinalStep(w: World, s: Queue, t: Task, o: Outcome)
    requires TaskInv(s, t) && s.pending.Some? && Final(s)
    requires WritesFailureBack(t) ==> IsLive(s.pending)
    ensures var s' := FilesAfter(w, s, t, o);
            && Final(s') && s'.submissions == s.submissions
            && (DeliveryRecorded(s) ==> DeliveryRecorded(s'))
  {
  }

  /** A removed entry stays removed: a stale check re-reads under the claim and finds nothing. */
  lemma {:induction false} GoneStaysGone(w: World, s: Queue, es: seq<Event>)
    requires ClaimsHold(w) && Inv(s) && s.pending.None?
    ensures var s' := Run(w, s, es);
            s'.pending.None? && s'.sent == s.sent && s'.cancelled == s.cancelled && s'.submissions == s.submissions
    decreases |es|
  {
    if es != [] {
      var p, o := es[0].task, es[0].outcome;
      GoneStep(w, s, TaskOf(s, p), o);
      ApplyKeepsInv(w, s, p, o);
      GoneStaysGone(w, Apply(w, s, p, o), es[1..]);
    }
  }

  lemma FinalApply(w: World, s: Queue, p: nat, o: Outcome)
    requires Inv(s) && FailuresAreLive(s) && Final(s)
    ensures var s' := Apply(w, s, p, o);
            && Final(s') && s'.submissions == s.submissions
            && (DeliveryRecorded(s) ==> DeliveryRecorded(s'))
  {
    if s.pending.None? {
      GoneStep(w, s, TaskOf(s, p), o);
    } else {
      FinalStep(w, s, TaskOf(s, p), o);
    }
  }

  lemma {:induction false} FinalStaysFinal(w: World, s: Queue, es: seq<Event>)
    requires ReadsHold(w) && Inv(s) && FailuresAreLive(s) && Final(s)
    ensures var s' := Run(w, s, es);
            && Final(s') && s'.submissions == s.submissions
            && (DeliveryRecorded(s) ==> DeliveryRecorded(s'))
    decreases |es|
  {
    if es != [] {
      var p, o := es[0].task, es[0].outcome;
      FinalApply(w, s, p, o);
      ApplyKeepsInv(w, s, p, o);
      ApplyKeepsFailuresLive(w, s, p, o);
      FinalStaysFinal(w, Apply(w, s, p, o), es[1..]);
    }
  }

  lemma {:induction false} RunKeepsFailuresLive(w: World, s: Queue, es: seq<Event>)
    requires ReadsHold(w) && Inv(s) && FailuresAreLive(s)
    ensures FailuresAreLive(Run(w, s, es))
    decreases |es|
  {
    if es != [] {
      ApplyKeepsInv(w, s, es[0].task, es[0].outcome);
      ApplyKeepsFailuresLive(w, s, es[0].task, es[0].outcome);
      RunKeepsFailuresLive(w, Apply(w, s, es[0].task, es[0].outcome), es[1..]);
    }
  }
}
