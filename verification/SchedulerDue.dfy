/** No entry is sent before its time, in any run of any world. */
module SchedulerDue {
  import opened Wrappers
  import opened SchedulerProtocol

  /** Some check of the run began at the send time or later. */
  predicate CheckedAt(es: seq<Event>, ms: int) {
    exists i | 0 <= i < |es| :: es[i].outcome.StartCheck? && ms <= es[i].outcome.now
  }

  /** The task began too early to send, and what it may write keeps the send time. */
  predicate TooEarly(t: Task, ms: int) {
    match t
    case Reading(now) => now < ms
    case Claiming(now, _) => now < ms
    case Rereading(now, _) => now < ms
    case WritingFailure(_, failed) => failed.sendAt == At(ms)
    case GivingUp(_, _) | MarkingSending(_, _) | Submitting(_, _) | Restoring(_, _) => false
    case RecordingSent(_, _) | Moving(_, _) => false
    case _ => true
  }

  ghost predicate Unsent(s: Queue, ms: int) {
    && s.submissions == 0 && (s.pending.Some? ==> s.pending.value.sendAt == At(ms))
    && forall p | p in s.tasks :: TooEarly(s.tasks[p], ms)
  }

  lemma StepIsTooEarly(w: World, s: Queue, t: Task, o: Outcome, ms: int)
    requires TooEarly(t, ms) && s.submissions == 0 && (s.pending.Some? ==> s.pending.value.sendAt == At(ms))
    ensures var s' := FilesAfter(w, s, t, o);
            && s'.submissions == 0 && (s'.pending.Some? ==> s'.pending.value.sendAt == At(ms)) && s'.tasks == s.tasks
    ensures TooEarly(TaskAfter(w, s, t, o), ms)
  {
  }

  lemma ApplyKeepsUnsent(w: World, s: Queue, p: nat, o: Outcome, ms: int)
    requires Unsent(s, ms) && (o.StartCheck? ==> o.now < ms)
    ensures Unsent(Apply(w, s, p, o), ms)
  {
    StepIsTooEarly(w, s, TaskOf(s, p), o, ms);
  }

  lemma {:induction false} RunKeepsUnsent(w: World, s: Queue, es: seq<Event>, ms: int)
    requires Unsent(s, ms) && !CheckedAt(es, ms)
    ensures Unsent(Run(w, s, es), ms)
    decreases |es|
  {
    if es != [] {
      assert es[0].outcome.StartCheck? ==> es[0].outcome.now < ms;
      ApplyKeepsUnsent(w, s, es[0].task, es[0].outcome, ms);
      assert forall i | 0 <= i < |es[1..]| :: es[1..][i] == es[i + 1];
      RunKeepsUnsent(w, Apply(w, s, es[0].task, es[0].outcome), es[1..], ms);
    }
  }

  /** SMTP took the message, or the entry is gone as sent, only if some check began at its send time or later. */
  lemma NeverEarly(w: World, ms: int, draft: bool, es: seq<Event>)
    requires Run(w, Scheduled(At(ms), draft), es).submissions > 0
    ensures exists i | 0 <= i < |es| :: es[i].outcome.StartCheck? && ms <= es[i].outcome.now
  {
    if !CheckedAt(es, ms) {
      RunKeepsUnsent(w, Scheduled(At(ms), draft), es, ms);
    }
  }
}
