/**
 * What a check that has its claim achieves when its own operations work, in any run: other checks,
 * cancels, failures and crashes may come between any two of its steps.
 */
module SchedulerProgress {
  import opened Wrappers
  import opened SchedulerProtocol
  import opened SchedulerSafety

  /** Storage works for the task, and its process lives. */
  predicate StorageWorks(es: seq<Event>, p: nat) {
    forall k | 0 <= k < |es| && es[k].task == p :: !es[k].outcome.Fail? && !es[k].outcome.Crash?
  }

  predicate IsStart(o: Outcome) {
    o.StartCheck? || o.StartCancel?
  }

  /** How many steps of its own the task takes. */
  function OwnSteps(es: seq<Event>, p: nat): nat
    decreases |es|
  {
    if es == [] then 0 else (if es[0].task == p && !IsStart(es[0].outcome) then 1 else 0) + OwnSteps(es[1..], p)
  }

  /** The most steps from the read under the claim to the release. */
  const CHECK_STEPS: nat := 7

  function StepsLeft(t: Task): nat {
    match t
    case Rereading(_, _) => CHECK_STEPS
    case MarkingSending(_, _) => 6
    case Submitting(_, _) => 5
    case RecordingSent(_, _) => 4
    case Moving(_, _) => 3
    case ReadingFailure(_) => 3
    case GivingUp(_, _) => 2
    case Restoring(_, _) => 2
    case DroppingDraft(_) => 2
    case WritingFailure(_, _) => 2
    case Releasing(_) => 1
    case _ => 0
  }

  // ------------------------------------------------------------------ the check, step by step

  /** What SMTP answers when the task next asks it. */
  function AnswerTo(w: World, s: Queue, p: nat, es: seq<Event>): Outcome
    decreases |es|
  {
    if es == [] then Refused
    else if es[0].task == p && TaskOf(s, p).Submitting? && !IsStart(es[0].outcome) then es[0].outcome
    else AnswerTo(w, Apply(w, s, es[0].task, es[0].outcome), p, es[1..])
  }

  /** Before SMTP is asked. */
  predicate Unanswered(t: Task) {
    t.Rereading? || t.GivingUp? || t.MarkingSending? || t.Submitting?
  }

  /** What a check leaves of the record r it read under its claim, n messages having been submitted before. */
  predicate Leaves(answer: Outcome, s: Queue, r: Record, n: nat) {
    if r.attempts >= MAX_ATTEMPTS then s.pending == Some(r.(status := Failed)) && s.submissions == n
    else match answer
      case Accepted => s.pending.None? && s.sent == Some(Attempted(r).(status := Sent)) && s.submissions == n + 1
      case RateLimited => s.pending == Some(r) && s.submissions == n
      case AnswerLost => s.pending == Some(AfterFailure(Attempted(r))) && s.submissions == n + 1
      case _ => s.pending == Some(AfterFailure(Attempted(r))) && s.submissions == n
  }

  /** Where the files are while the check stands at each of its steps. */
  predicate OnTrack(answer: Outcome, s: Queue, t: Task, token: nat, r: Record, n: nat) {
    && HeldToken(t) == Some(token)
    && (t.Rereading? || t.GivingUp? || t.Releasing? || r.attempts < MAX_ATTEMPTS)
    && match t
       case Rereading(now, _) => s.pending == Some(r) && IsDue(r, now) && s.submissions == n
       case GivingUp(_, x) => x == r && s.pending == Some(r) && r.attempts >= MAX_ATTEMPTS && s.submissions == n
       case MarkingSending(_, queued) => queued == r && s.pending == Some(r) && s.submissions == n
       case Submitting(_, queued) => queued == r && s.pending == Some(Attempted(r)) && s.submissions == n
       case Restoring(_, queued) =>
         answer.RateLimited? && queued == r && s.pending == Some(Attempted(r)) && s.submissions == n
       case RecordingSent(_, sending) =>
         answer.Accepted? && sending == Attempted(r) && s.pending == Some(sending) && s.submissions == n + 1
       case Moving(_, sending) =>
         answer.Accepted? && sending == Attempted(r) && s.pending == Some(sending.(status := Sent))
           && s.submissions == n + 1
       case DroppingDraft(_) => answer.Accepted? && Leaves(answer, s, r, n)
       case ReadingFailure(_) => Unsent(answer, s, r, n)
       case WritingFailure(_, failed) => Unsent(answer, s, r, n) && failed == AfterFailure(Attempted(r))
       case Releasing(_) => Leaves(answer, s, r, n)
       case _ => false
  }

  predicate Unsent(answer: Outcome, s: Queue, r: Record, n: nat) {
    && !answer.Accepted? && !answer.RateLimited?
    && s.pending == Some(Attempted(r)) && s.submissions == n + (if answer.AnswerLost? then 1 else 0)
  }

  /** A step of its own takes the check one further, or ends it with the record settled. */
  lemma OwnStep(w: World, s: Queue, t: Task, o: Outcome, answer: Outcome, token: nat, r: Record, n: nat)
    requires OnTrack(answer, s, t, token, r, n) && !o.Fail? && (t.Submitting? ==> o == answer)
    ensures var s', t' := FilesAfter(w, s, t, o), TaskAfter(w, s, t, o);
            && StepsLeft(t') < StepsLeft(t)
            && (Unanswered(t') ==> Unanswered(t) && !t.Submitting?)
            && if HeldToken(t') == Some(token) then OnTrack(answer, s', t', token, r, n) else Leaves(answer, s', r, n)
  {
  }

  predicate SameFiles(s: Queue, s': Queue) {
    s'.pending == s.pending && s'.sent == s.sent && s'.submissions == s.submissions
  }

  /** While a task holds the claim, no other task's step changes the files or what it stands at. */
  lemma OthersStep(w: World, s: Queue, p: nat, q: nat, o: Outcome)
    requires ClaimsHold(w) && Inv(s) && q != p && HeldToken(TaskOf(s, p)).Some?
    ensures SameFiles(s, Apply(w, s, q, o)) && TaskOf(Apply(w, s, q, o), p) == TaskOf(s, p)
  {
    var t := TaskOf(s, q);
    assert HeldToken(t).None?;
    if !o.Crash? && !IsStart(o) {
      assert HasLiveHolder(s, s.lock.value);
      UnclaimedStep(w, s, t, o);
    }
  }

  lemma OwnEvent(w: World, s: Queue, p: nat, o: Outcome)
    requires HeldToken(TaskOf(s, p)).Some? && !o.Crash?
    ensures var s', t := Apply(w, s, p, o), TaskOf(s, p);
            if IsStart(o) then SameFiles(s, s') && TaskOf(s', p) == t
            else SameFiles(FilesAfter(w, s, t, o), s') && TaskOf(s', p) == TaskAfter(w, s, t, o)
  {
  }

  lemma OnTrackSame(s: Queue, s': Queue, t: Task, answer: Outcome, token: nat, r: Record, n: nat)
    requires SameFiles(s, s')
    ensures OnTrack(answer, s', t, token, r, n) == OnTrack(answer, s, t, token, r, n)
    ensures Leaves(answer, s', r, n) == Leaves(answer, s, r, n)
  {
  }

  predicate IsOwnStep(e: Event, p: nat) {
    e.task == p && !IsStart(e.outcome)
  }

  /** Any event leaves the check where it was, or takes it its own step further. */
  lemma EventOnTrack(w: World, s: Queue, p: nat, e: Event, answer: Outcome, token: nat, r: Record, n: nat)
    requires ClaimsHold(w) && Inv(s) && OnTrack(answer, s, TaskOf(s, p), token, r, n)
    requires e.task == p ==> !e.outcome.Fail? && !e.outcome.Crash?
    requires IsOwnStep(e, p) && TaskOf(s, p).Submitting? ==> e.outcome == answer
    ensures var s', t := Apply(w, s, e.task, e.outcome), TaskOf(s, p);
            && StepsLeft(TaskOf(s', p)) + (if IsOwnStep(e, p) then 1 else 0) <= StepsLeft(t)
            && (Unanswered(TaskOf(s', p)) ==> Unanswered(t) && !(IsOwnStep(e, p) && t.Submitting?))
            && if HeldToken(TaskOf(s', p)) == Some(token) then OnTrack(answer, s', TaskOf(s', p), token, r, n)
               else Leaves(answer, s', r, n)
  {
    var s', t := Apply(w, s, e.task, e.outcome), TaskOf(s, p);
    if e.task != p {
      OthersStep(w, s, p, e.task, e.outcome);
      OnTrackSame(s, s', t, answer, token, r, n);
    } else {
      OwnEvent(w, s, p, e.outcome);
      if IsStart(e.outcome) {
        OnTrackSame(s, s', t, answer, token, r, n);
      } else {
        OwnStep(w, s, t, e.outcome, answer, token, r, n);
        OnTrackSame(FilesAfter(w, s, t, e.outcome), s', TaskAfter(w, s, t, e.outcome), answer, token, r, n);
      }
    }
  }

  /** Given its steps, the check ends, after k events, and leaves what SMTP's answer calls for. */
  lemma {:induction false} CheckEnds(
    w: World, s: Queue, p: nat, es: seq<Event>, answer: Outcome, token: nat, r: Record, n: nat)
    returns (k: nat)
    requires ClaimsHold(w) && Inv(s) && OnTrack(answer, s, TaskOf(s, p), token, r, n)
    requires StorageWorks(es, p) && OwnSteps(es, p) >= StepsLeft(TaskOf(s, p))
    requires Unanswered(TaskOf(s, p)) ==> answer == AnswerTo(w, s, p, es)
    ensures k <= |es| && Leaves(answer, Run(w, s, es[..k]), r, n)
    ensures HeldToken(TaskOf(Run(w, s, es[..k]), p)) != Some(token)
    decreases |es|
  {
    var e := es[0];
    var s' := Apply(w, s, e.task, e.outcome);
    EventOnTrack(w, s, p, e, answer, token, r, n);
    ApplyKeepsInv(w, s, e.task, e.outcome);
    if HeldToken(TaskOf(s', p)) == Some(token) {
      var j := CheckEnds(w, s', p, es[1..], answer, token, r, n);
      k := j + 1;
      assert es[..k][1..] == es[1..][..j] && es[..k][0] == e;
    } else {
      k := 1;
      assert es[..1] == [e] && [e][1..] == [];
    }
  }

  /** What a check leaves in any run: each answer of SMTP has its own end, and used-up attempts end without asking. */
  lemma CheckOutcome(w: World, s: Queue, p: nat, es: seq<Event>) returns (k: nat)
    requires ClaimsHold(w) && Inv(s) && ClaimedCheck(w, s, p, es)
    ensures k <= |es| && HeldToken(TaskOf(Run(w, s, es[..k]), p)) != HeldToken(TaskOf(s, p))
    ensures Leaves(AnswerTo(w, s, p, es), Run(w, s, es[..k]), s.pending.value, s.submissions)
  {
    k := CheckEnds(w, s, p, es, AnswerTo(w, s, p, es), TaskOf(s, p).token, s.pending.value, s.submissions);
  }

  /** A check of a due entry that has its claim and whose operations work, among any other events. */
  predicate ClaimedCheck(w: World, s: Queue, p: nat, es: seq<Event>) {
    && TaskOf(s, p).Rereading? && IsLive(s.pending) && IsDue(s.pending.value, TaskOf(s, p).now)
    && StorageWorks(es, p) && OwnSteps(es, p) >= CHECK_STEPS
  }

  // ------------------------------------------------------------------ how many checks an entry can take

  predicate Submits(t: Task) {
    t.Submitting? || t.Restoring?
  }

  ghost predicate SomeoneSubmits(s: Queue) {
    exists p | p in s.tasks :: Submits(s.tasks[p])
  }

  function LeftOf(status: Status, attempts: int): nat {
    if status.Failed? then 0
    else if attempts >= MAX_ATTEMPTS then (if status.Sent? then 0 else 1)
    else if attempts < 0 then MAX_ATTEMPTS else MAX_ATTEMPTS - attempts
  }

  function LeftIf(r: Option<Record>, submitting: bool): nat {
    if r.None? then 0 else LeftOf(r.value.status, r.value.attempts - (if submitting then 1 else 0))
  }

  /** Checks an entry can still take before none sends it; an attempt under way counts once its answer is in. */
  ghost function ChecksLeft(s: Queue): nat {
    LeftIf(s.pending, SomeoneSubmits(s))
  }

  lemma HolderLeft(w: World, s: Queue, t: Task, o: Outcome)
    requires HeldToken(t).Some? && TaskInv(s, t) && FailedIsExhausted(s)
    ensures LeftIf(FilesAfter(w, s, t, o).pending, Submits(TaskAfter(w, s, t, o))) <= LeftIf(s.pending, Submits(t))
  {
  }

  lemma UnclaimedLeft(w: World, s: Queue, t: Task, o: Outcome)
    requires ClaimsHold(w) && HeldToken(t).None? && TaskInv(s, t)
    ensures FilesAfter(w, s, t, o).pending == s.pending && FilesAfter(w, s, t, o).tasks == s.tasks
            && !Submits(TaskAfter(w, s, t, o))
  {
  }

  lemma TasksAfter(files: Queue, p: nat, t: Task)
    ensures var after := With(files, p, t);
            SomeoneSubmits(after) <==> Submits(t) || exists q | q in files.tasks && q != p :: Submits(files.tasks[q])
  {
    var after := With(files, p, t);
    if Submits(t) {
      assert p in after.tasks && after.tasks[p] == t;
    }
    if q :| q in files.tasks && q != p && Submits(files.tasks[q]) {
      assert q in after.tasks && after.tasks[q] == files.tasks[q];
    }
  }

  /** Who submits before and after one task's step: the holder, or whoever did. */
  lemma SubmitsAfter(s: Queue, files: Queue, p: nat, t: Task)
    requires Inv(s) && files.tasks == s.tasks
    ensures HeldToken(TaskOf(s, p)).Some? ==>
              (SomeoneSubmits(s) <==> Submits(TaskOf(s, p))) && (SomeoneSubmits(With(files, p, t)) <==> Submits(t))
    ensures HeldToken(TaskOf(s, p)).None? && !Submits(t) ==> (SomeoneSubmits(With(files, p, t)) <==> SomeoneSubmits(s))
  {
    TasksAfter(files, p, t);
    if HeldToken(TaskOf(s, p)).Some? {
      assert forall q | q in s.tasks && q != p :: HeldToken(s.tasks[q]).None?;
      assert p in s.tasks;
    } else if q :| q in s.tasks && Submits(s.tasks[q]) {
      assert q != p;
    }
  }

  /** Nothing gives an entry checks back: not a crash, not a deferral, not a failure note. */
  lemma ChecksLeftNeverGrows(w: World, s: Queue, p: nat, o: Outcome)
    requires ClaimsHold(w) && Inv(s)
    ensures ChecksLeft(Apply(w, s, p, o)) <= ChecksLeft(s)
  {
    var t := TaskOf(s, p);
    if o.Crash? {
      SubmitsAfter(s, s, p, Crashed);
    } else if IsStart(o) {
      SubmitsAfter(s, s, p, if !t.Idle? then t else if o.StartCheck? then Reading(o.now) else CancelReading);
    } else {
      var s', t' := FilesAfter(w, s, t, o), TaskAfter(w, s, t, o);
      assert TaskInv(s, t);
      if HeldToken(t).Some? {
        HolderLeft(w, s, t, o);
        HolderStep(w, s, t, o);
      } else {
        UnclaimedLeft(w, s, t, o);
      }
      SubmitsAfter(s, s', p, t');
    }
  }

  lemma {:induction false} ChecksLeftInRun(w: World, s: Queue, es: seq<Event>)
    requires ClaimsHold(w) && Inv(s)
    ensures Inv(Run(w, s, es)) && ChecksLeft(Run(w, s, es)) <= ChecksLeft(s)
    decreases |es|
  {
    if es != [] {
      ApplyKeepsInv(w, s, es[0].task, es[0].outcome);
      ChecksLeftNeverGrows(w, s, es[0].task, es[0].outcome);
      ChecksLeftInRun(w, Apply(w, s, es[0].task, es[0].outcome), es[1..]);
    }
  }

  predicate GoodCheck(w: World, s: Queue, p: nat, es: seq<Event>) {
    ClaimedCheck(w, s, p, es) && !AnswerTo(w, s, p, es).RateLimited?
  }

  /** A check that is not deferred takes the entry strictly nearer to sent or failed, whatever runs beside it. */
  lemma CheckMakesProgress(w: World, s: Queue, p: nat, es: seq<Event>)
    requires ClaimsHold(w) && Inv(s) && GoodCheck(w, s, p, es)
    ensures Inv(Run(w, s, es)) && ChecksLeft(Run(w, s, es)) < ChecksLeft(s)
  {
    var r, n := s.pending.value, s.submissions;
    var k := CheckOutcome(w, s, p, es);
    var ended := Run(w, s, es[..k]);
    ChecksLeftInRun(w, s, es[..k]);
    ChecksLeftInRun(w, ended, es[k..]);
    RunAppend(w, s, es[..k], es[k..]);
    assert es[..k] + es[k..] == es;
    SettledHasFewerLeft(ended, AnswerTo(w, s, p, es), r, n);
    assert s.tasks[p].Rereading?;
    SubmitsAfter(s, s, p, s.tasks[p]);
    assert With(s, p, s.tasks[p]) == s;
  }

  lemma NoneSubmitsUnlessSending(s: Queue)
    requires Inv(s) && !(s.pending.Some? && s.pending.value.status.Sending?)
    ensures !SomeoneSubmits(s)
  {
    forall p | p in s.tasks ensures !Submits(s.tasks[p]) {
      assert TaskInv(s, s.tasks[p]);
    }
  }

  lemma SettledHasFewerLeft(s: Queue, answer: Outcome, r: Record, n: nat)
    requires Leaves(answer, s, r, n) && !answer.RateLimited? && IsLive(Some(r)) && Inv(s)
    ensures ChecksLeft(s) < LeftOf(r.status, r.attempts)
  {
    NoneSubmitsUnlessSending(s);
  }

  // ------------------------------------------------------------------ any run

  /**
   * A run cut at its checks: what comes before the next one, the task that runs it, and the events until
   * it is over.
   */
  datatype Leg = Leg(lead: seq<Event>, p: nat, es: seq<Event>)

  ghost function RunLegs(w: World, s: Queue, legs: seq<Leg>): Queue
    decreases |legs|
  {
    if legs == [] then s else RunLegs(w, Run(w, Run(w, s, legs[0].lead), legs[0].es), legs[1..])
  }

  ghost predicate GoodChecks(w: World, s: Queue, legs: seq<Leg>)
    decreases |legs|
  {
    legs == []
    || (GoodCheck(w, Run(w, s, legs[0].lead), legs[0].p, legs[0].es)
        && GoodChecks(w, Run(w, Run(w, s, legs[0].lead), legs[0].es), legs[1..]))
  }

  lemma {:induction false} EachCheckCounts(w: World, s: Queue, legs: seq<Leg>)
    requires ClaimsHold(w) && Inv(s) && GoodChecks(w, s, legs)
    ensures ChecksLeft(RunLegs(w, s, legs)) + |legs| <= ChecksLeft(s)
    decreases |legs|
  {
    if legs != [] {
      var s1 := Run(w, s, legs[0].lead);
      ChecksLeftInRun(w, s, legs[0].lead);
      CheckMakesProgress(w, s1, legs[0].p, legs[0].es);
      EachCheckCounts(w, Run(w, s1, legs[0].es), legs[1..]);
    }
  }

  /**
   * In any run there are at most MAX_ATTEMPTS such checks of one entry, and after that many it is
   * sent, cancelled or failed: no check is due.
   */
  lemma ChecksSettle(w: World, sendAt: SendTime, draft: bool, legs: seq<Leg>)
    requires ClaimsHold(w) && GoodChecks(w, Scheduled(sendAt, draft), legs)
    ensures |legs| <= MAX_ATTEMPTS
    ensures |legs| == MAX_ATTEMPTS ==> !IsLive(RunLegs(w, Scheduled(sendAt, draft), legs).pending)
  {
    ScheduledInv(sendAt, draft);
    EachCheckCounts(w, Scheduled(sendAt, draft), legs);
    var s := RunLegs(w, Scheduled(sendAt, draft), legs);
    if IsLive(s.pending) {
      assert ChecksLeft(s) >= 1;
    }
  }
}
