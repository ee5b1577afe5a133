/**
 * The scheduled-send queue for one schedule id, as a step system.
 *
 * Any number of tasks (a queue check, from the timer or from the command line, or a cancel) run
 * against one pending file, one sent file and one claim. Every `await` of the source is a step
 * boundary; a step may fail, and any task may crash between two steps.
 */
module SchedulerProtocol {
  import opened Wrappers

  const MAX_ATTEMPTS: nat := 3

  datatype Status = Pending | Sending | Sent | Failed

  /** A damaged send time parses to NaN, which is never greater than the clock. */
  datatype SendTime = At(ms: int) | Unreadable

  datatype Record = Record(status: Status, attempts: nat, sendAt: SendTime, hasDraft: bool)

  predicate IsSendTimeReached(sendAt: SendTime, now: int) {
    sendAt.Unreadable? || !(sendAt.ms > now)
  }

  predicate IsDelivered(r: Record) {
    r.status.Sent?
  }

  predicate IsDue(r: Record, now: int) {
    !r.status.Failed? && !r.status.Sent? && IsSendTimeReached(r.sendAt, now)
  }

  function Attempted(queued: Record): Record {
    queued.(status := Sending, attempts := queued.attempts + 1)
  }

  function AfterFailure(r: Record): Record {
    r.(status := if r.attempts >= MAX_ATTEMPTS then Failed else Pending)
  }

  /** Where a task stands: the file operation it does next, with the locals it carries. */
  datatype Task =
    | Idle
    | Crashed
    // processQueueFile
    | Reading(now: int)
    | Claiming(now: int, delivered: bool)
    | Settling(token: nat)
    | Rereading(now: int, token: nat)
    | GivingUp(token: nat, exhausted: Record)
    | MarkingSending(token: nat, queued: Record)
    | Submitting(token: nat, queued: Record)
    | Restoring(token: nat, queued: Record)
    | RecordingSent(token: nat, sending: Record)
    | Moving(token: nat, sending: Record)
    | DroppingDraft(token: nat)
    // writeSendFailure, with the claim of the task that called it, if it had one
    | ReadingFailure(claim: Option<nat>)
    | WritingFailure(claim: Option<nat>, failed: Record)
    | Releasing(token: nat)
    // cancel
    | CancelReading
    | CancelClaiming
    | CancelRereading(token: nat)
    | CancelDroppingDraft(token: nat)
    | Unlinking(token: nat)

  function HeldToken(t: Task): Option<nat> {
    match t
    case Idle | Crashed | Reading(_) | Claiming(_, _) | CancelReading | CancelClaiming => None
    case ReadingFailure(claim) => claim
    case WritingFailure(claim, _) => claim
    case Settling(token) => Some(token)
    case Rereading(_, token) => Some(token)
    case GivingUp(token, _) => Some(token)
    case MarkingSending(token, _) => Some(token)
    case Submitting(token, _) => Some(token)
    case Restoring(token, _) => Some(token)
    case RecordingSent(token, _) => Some(token)
    case Moving(token, _) => Some(token)
    case DroppingDraft(token) => Some(token)
    case Releasing(token) => Some(token)
    case CancelRereading(token) => Some(token)
    case CancelDroppingDraft(token) => Some(token)
    case Unlinking(token) => Some(token)
  }

  /**
   * `submissions` counts the messages SMTP accepted for this id, reported back or not, and
   * `cancelled` says a cancel has removed the file. Only tasks that are not idle are listed.
   */
  datatype Queue = Queue(
    pending: Option<Record>,
    sent: Option<Record>,
    cancelled: bool,
    lock: Option<nat>,
    nextToken: nat,
    tasks: map<nat, Task>,
    submissions: nat)

  /** Which misbehaviour of the world around the queue a run may show. */
  datatype World = World(
    /** The read before the claim can fail although the file is there. */
    firstReadMayFail: bool,
    /** So can the read under the claim. */
    rereadMayFail: bool,
    /** The claim of a task that is still running can go stale and be taken over. */
    liveClaimMayLapse: bool)

  datatype Outcome =
    | StartCheck(now: int)
    | StartCancel
    | Ok
    | Fail
    /** SMTP took the message and said so; took it but the answer was lost; did not take it; was not asked. */
    | Accepted
    | AnswerLost
    | Refused
    | RateLimited
    | Crash

  function Scheduled(sendAt: SendTime, hasDraft: bool): Queue {
    Queue(Some(Record(Pending, 0, sendAt, hasDraft)), None, false, None, 0, map[], 0)
  }

  function TaskOf(s: Queue, p: nat): Task {
    if p in s.tasks then s.tasks[p] else Idle
  }

  function With(s: Queue, p: nat, t: Task): Queue {
    s.(tasks := if t.Idle? then s.tasks - {p} else s.tasks[p := t])
  }

  predicate HasLiveHolder(s: Queue, token: nat) {
    exists p | p in s.tasks :: HeldToken(s.tasks[p]) == Some(token)
  }

  /** The claim contract: exclusive create, or takeover of a claim that went stale. */
  predicate CanClaim(w: World, s: Queue) {
    s.lock.None? || w.liveClaimMayLapse || !HasLiveHolder(s, s.lock.value)
  }

  function Claimed(s: Queue): Queue {
    s.(lock := Some(s.nextToken), nextToken := s.nextToken + 1)
  }

  function Write(s: Queue, r: Record): Queue {
    s.(pending := Some(r))
  }

  /** `rename` into sent/; without a pending file it fails and changes nothing. */
  function Rename(s: Queue): Queue {
    if s.pending.Some? then s.(sent := s.pending, pending := None) else s
  }

  function AfterFailureTask(claim: Option<nat>): Task {
    if claim.Some? then Releasing(claim.value) else Idle
  }

  function Apply(w: World, s: Queue, p: nat, o: Outcome): Queue {
    var t := TaskOf(s, p);
    match o
    case StartCheck(now) => With(s, p, if t.Idle? then Reading(now) else t)
    case StartCancel => With(s, p, if t.Idle? then CancelReading else t)
    case Crash => With(s, p, Crashed)
    case _ => With(FilesAfter(w, s, t, o), p, TaskAfter(w, s, t, o))
  }

  /** What a task's step does to the files, the claim and the count of submissions. */
  function FilesAfter(w: World, s: Queue, t: Task, o: Outcome): Queue {
    match t
    case Claiming(_, _) => if o.Fail? || !CanClaim(w, s) then s else Claimed(s)
    case CancelClaiming => if o.Fail? || !CanClaim(w, s) then s else Claimed(s)
    case Settling(_) => if o.Fail? then s else Rename(s)
    case GivingUp(_, exhausted) => if o.Fail? then s else Write(s, exhausted.(status := Failed))
    case MarkingSending(_, queued) => if o.Fail? then s else Write(s, Attempted(queued))
    case Submitting(_, _) => if o.Accepted? || o.AnswerLost? then s.(submissions := s.submissions + 1) else s
    case Restoring(_, queued) => if o.Fail? then s else Write(s, queued)
    case RecordingSent(_, sending) => if o.Fail? then s else Write(s, sending.(status := Sent))
    case Moving(_, _) => if o.Fail? then s else Rename(s)
    case WritingFailure(_, failed) => if o.Fail? then s else Write(s, failed)
    case Releasing(token) => if !o.Fail? && s.lock == Some(token) then s.(lock := None) else s
    case Unlinking(_) => if o.Fail? || s.pending.None? then s else s.(pending := None, cancelled := true)
    case _ => s
  }

  /** The step a task stands at next. A read that the world does not let fail waits instead. */
  function TaskAfter(w: World, s: Queue, t: Task, o: Outcome): Task {
    match t
    case Idle | Crashed => t
    case Reading(now) =>
      if s.pending.Some? && o.Fail? && !w.firstReadMayFail then t
      else if s.pending.None? || o.Fail? then ReadingFailure(None)
      else if IsDelivered(s.pending.value) || IsDue(s.pending.value, now) then
        Claiming(now, IsDelivered(s.pending.value))
      else Idle
    case Claiming(now, delivered) =>
      if o.Fail? || !CanClaim(w, s) then Idle
      else if delivered then Settling(s.nextToken) else Rereading(now, s.nextToken)
    case Settling(token) => Releasing(token)
    case Rereading(now, token) =>
      if o.Fail? then (if w.rereadMayFail then ReadingFailure(Some(token)) else t)
      else if s.pending.None? || !IsDue(s.pending.value, now) then Releasing(token)
      else if s.pending.value.attempts >= MAX_ATTEMPTS then GivingUp(token, s.pending.value)
      else MarkingSending(token, s.pending.value)
    case GivingUp(token, _) => if o.Fail? then ReadingFailure(Some(token)) else Releasing(token)
    case MarkingSending(token, queued) =>
      if o.Fail? then ReadingFailure(Some(token)) else Submitting(token, queued)
    case Submitting(token, queued) =>
      if o.Accepted? then RecordingSent(token, Attempted(queued))
      else if o.RateLimited? then Restoring(token, queued)
      else ReadingFailure(Some(token))
    case Restoring(token, _) => if o.Fail? then ReadingFailure(Some(token)) else Releasing(token)
    case RecordingSent(token, sending) => Moving(token, sending)
    case Moving(token, sending) => if sending.hasDraft then DroppingDraft(token) else Releasing(token)
    case DroppingDraft(token) => Releasing(token)
    case ReadingFailure(claim) =>
      if o.Fail? || s.pending.None? then AfterFailureTask(claim)
      else WritingFailure(claim, AfterFailure(s.pending.value))
    case WritingFailure(claim, _) => AfterFailureTask(claim)
    case Releasing(_) => Idle
    case CancelReading =>
      if o.Fail? || s.pending.None? || !s.pending.value.status.Pending? then Idle else CancelClaiming
    case CancelClaiming => if o.Fail? || !CanClaim(w, s) then Idle else CancelRereading(s.nextToken)
    case CancelRereading(token) =>
      if o.Fail? || s.pending.None? || !s.pending.value.status.Pending? then Releasing(token)
      else if s.pending.value.hasDraft then CancelDroppingDraft(token) else Unlinking(token)
    case CancelDroppingDraft(token) => Unlinking(token)
    case Unlinking(token) => Releasing(token)
  }

  datatype Event = Event(task: nat, outcome: Outcome)

  function Run(w: World, s: Queue, es: seq<Event>): Queue
    decreases |es|
  {
    if es == [] then s else Run(w, Apply(w, s, es[0].task, es[0].outcome), es[1..])
  }

  lemma {:induction false} RunAppend(w: World, s: Queue, es: seq<Event>, fs: seq<Event>)
    ensures Run(w, s, es + fs) == Run(w, Run(w, s, es), fs)
    decreases |es|
  {
    if es == [] {
      assert es + fs == fs;
    } else {
      assert (es + fs)[0] == es[0] && (es + fs)[1..] == es[1..] + fs;
      RunAppend(w, Apply(w, s, es[0].task, es[0].outcome), es[1..], fs);
    }
  }
}
