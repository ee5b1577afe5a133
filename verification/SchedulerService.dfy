/**
 * processQueueFile and cancel as the source writes them, on the files of one schedule id while no
 * other task acts. Every method leaves the files where a run of the step system leaves them, so
 * what holds of every run holds of every sequence of these calls.
 */
module SchedulerService {
  import opened Wrappers
  import opened SchedulerProtocol
  import opened SchedulerSafety
  import opened SchedulerTheorems

  datatype Delivery = DeliveredNow | FailedNow | Deferred | Skipped

  /** Which of a call's file operations work, and what SMTP answers if it is asked. */
  datatype Io = Io(
    read: bool, claim: bool, reread: bool, giveUp: bool, mark: bool, restore: bool, recordSent: bool,
    move: bool, readFailure: bool, writeFailure: bool, unlink: bool, release: bool, smtp: Outcome)
  {
    predicate Within(w: World) {
      && (!read ==> w.firstReadMayFail)
      && (!reread ==> w.rereadMayFail)
      && IsAnswered()
    }

    predicate IsAnswered() {
      (smtp.Accepted? || smtp.AnswerLost? || smtp.Refused? || smtp.RateLimited?)
    }
  }

  /** Whether a check under the claim gets as far as asking SMTP. */
  predicate Asks(r: Option<Record>, now: int, io: Io) {
    io.reread && r.Some? && IsDue(r.value, now) && r.value.attempts < MAX_ATTEMPTS && io.mark
  }

  /** And it takes the message, the answer lost or not. */
  predicate Submits(r: Option<Record>, now: int, io: Io) {
    Asks(r, now, io) && (io.smtp.Accepted? || io.smtp.AnswerLost?)
  }

  datatype Files = Files(pending: Option<Record>, sent: Option<Record>)

  /** The failure note, if it can be read and written. */
  function Noted(f: Files, io: Io): Files {
    if f.pending.Some? && io.readFailure && io.writeFailure then f.(pending := Some(AfterFailure(f.pending.value)))
    else f
  }

  function Moved(f: Files, works: bool): Files {
    if works && f.pending.Some? then Files(None, f.pending) else f
  }

  function Recorded(f: Files, sending: Record, io: Io): Files {
    Moved(f.(pending := Some(if io.recordSent then sending.(status := Sent) else sending)), io.move)
  }

  /** What sending a due record leaves, and its outcome; None is an error the caller notes. */
  function AfterSend(f: Files, queued: Record, io: Io): (Files, Option<Delivery>) {
    var marked := f.(pending := Some(Attempted(queued)));
    if !io.mark then (f, None)
    else if io.smtp.Accepted? then (Recorded(f, Attempted(queued), io), Some(DeliveredNow))
    else if io.smtp.RateLimited? && io.restore then (f.(pending := Some(queued)), Some(Deferred))
    else (marked, None)
  }

  function AfterRecheck(f: Files, now: int, io: Io): (Files, Option<Delivery>) {
    if !io.reread then (f, None)
    else if f.pending.None? || !IsDue(f.pending.value, now) then (f, Some(Skipped))
    else if f.pending.value.attempts < MAX_ATTEMPTS then AfterSend(f, f.pending.value, io)
    else if io.giveUp then (f.(pending := Some(f.pending.value.(status := Failed))), Some(FailedNow))
    else (f, None)
  }

  function AfterClaim(f: Files, delivered: bool, now: int, io: Io): (Files, Delivery) {
    if delivered then (Moved(f, io.move), Skipped)
    else
      var (left, d) := AfterRecheck(f, now, io);
      if d.Some? then (left, d.value) else (Noted(left, io), FailedNow)
  }

  /** A whole check: the files it leaves and the outcome it reports. */
  function AfterCheck(f: Files, now: int, io: Io): (Files, Delivery) {
    if !io.read || f.pending.None? then (Noted(f, io), FailedNow)
    else if !io.claim || !(IsDelivered(f.pending.value) || IsDue(f.pending.value, now)) then (f, Skipped)
    else AfterClaim(f, IsDelivered(f.pending.value), now, io)
  }

  predicate IsRecorded(f: Files) {
    if f.pending.Some? then f.pending.value.status.Sent? else f.sent.Some?
  }

  /** What a check's outcome tells about the files, for every mix of operations that fail. */
  lemma OutcomesMean(f: Files, now: int, io: Io)
    requires io.IsAnswered()
    ensures var d := AfterCheck(f, now, io).1;
            var waits := f.pending.Some? && (f.pending.value.status.Pending? || f.pending.value.status.Sending?);
            var early := f.pending.Some? && f.pending.value.sendAt.At? && f.pending.value.sendAt.ms > now;
            var asks := io.read && io.claim && io.reread && io.mark && waits && !early && f.pending.value.attempts < 3;
            && (d.DeliveredNow? <==> asks && io.smtp.Accepted?)
            && (d.Deferred? <==> asks && io.smtp.RateLimited? && io.restore)
            && (d.Skipped? <==> io.read && f.pending.Some? && (!io.claim || !waits || early))
    ensures var (left, d) := AfterCheck(f, now, io);
            match d
            case DeliveredNow =>
              && (IsRecorded(left) <==> io.recordSent || io.move)
              && (!IsRecorded(left) ==> left == f.(pending := Some(Attempted(f.pending.value))))
            case Deferred => left == f
            case Skipped =>
              left == f || (f.pending.Some? && f.pending.value.status.Sent? && left == Files(None, f.pending))
            case FailedNow =>
              && left.sent == f.sent && (f.pending.None? <==> left.pending.None?)
              && (f.pending.Some? ==>
                  f.pending.value.attempts <= left.pending.value.attempts <= f.pending.value.attempts + 1)
  {
  }

  /**
   * The whole check of an entry there is, row by row: which file it is in afterwards, what its record
   * says, what is reported, and whether SMTP took the message.
   */
  lemma CheckInPlainTerms(f: Files, r: Record, now: int, io: Io)
    requires f.pending == Some(r) && io.IsAnswered()
    ensures var (left, d) := AfterCheck(f, now, io);
            var submits := io.read && io.claim && Submits(f.pending, now, io);
            var waits, early := r.status.Pending? || r.status.Sending?, r.sendAt.At? && r.sendAt.ms > now;
            var tried := Record(Sending, r.attempts + 1, r.sendAt, r.hasDraft);
            var sending := io.read && io.claim && waits && !early && io.reread && r.attempts < 3 && io.mark;
            var notes := io.readFailure && io.writeFailure;
            // nothing to do, or not its turn
            && (io.read && (!io.claim || r.status.Failed? || (waits && early)) ==>
                  left == f && d == Skipped && !submits)
            // delivered before: only the move is tried again
            && (io.read && io.claim && r.status.Sent? ==>
                  left == (if io.move then Files(None, Some(r)) else f) && d == Skipped && !submits)
            // out of attempts
            && (io.read && io.claim && waits && !early && io.reread && r.attempts >= 3 && io.giveUp ==>
                  left == Files(Some(r.(status := Failed)), f.sent) && d == FailedNow && !submits)
            // SMTP is asked
            && (sending && io.smtp.Accepted? ==>
                  var done := if io.recordSent then tried.(status := Sent) else tried;
                  left == (if io.move then Files(None, Some(done)) else Files(Some(done), f.sent))
                  && d == DeliveredNow && submits)
            && (sending && io.smtp.RateLimited? && io.restore ==> left == f && d == Deferred && !submits)
            && (sending && (io.smtp.Refused? || io.smtp.AnswerLost? || (io.smtp.RateLimited? && !io.restore)) ==>
                  left == Files(Some(if !notes then tried
                                     else tried.(status := if r.attempts + 1 >= 3 then Failed else Pending)), f.sent)
                  && d == FailedNow && (submits <==> io.smtp.AnswerLost?))
            // an operation failed before that
            && (!io.read || (io.claim && waits && !early
                             && (!io.reread || (if r.attempts >= 3 then !io.giveUp else !io.mark))) ==>
                  left == Files(Some(if !notes then r
                                     else r.(status := if r.attempts >= 3 then Failed else Pending)), f.sent)
                  && d == FailedNow && !submits)
  {
  }

  function Result(works: bool): Outcome {
    if works then Ok else Fail
  }

  lemma OnlyThisTask(w: World, s: Queue, o: Outcome)
    requires s.tasks.Keys <= {0}
    ensures var after := Apply(w, s, 0, o);
            after.tasks == if TaskOf(after, 0).Idle? then map[] else map[0 := TaskOf(after, 0)]
  {
  }

  /**
   * Each awaited operation is a method of its own: what it does to the files, and the step the
   * caller stands at next. The six at the end are the source's methods built from them.
   */
  class QueueFiles {
    var pending: Option<Record>
    var sent: Option<Record>
    var lock: Option<nat>
    var nextToken: nat

    // What the outside sees, where the caller stands, and the run so far.
    ghost const world: World
    ghost const sendAt: SendTime
    ghost const hasDraft: bool
    ghost var submissions: nat
    ghost var cancelled: bool
    ghost var task: Task
    ghost var trace: seq<Event>

    ghost function View(): Queue
      reads this
    {
      Queue(pending, sent, cancelled, lock, nextToken, if task.Idle? then map[] else map[0 := task], submissions)
    }

    function OnDisk(): Files
      reads this
    {
      Files(pending, sent)
    }

    /** The files are what some run of the step system makes of the entry as it was scheduled. */
    ghost predicate Valid()
      reads this
    {
      View() == Run(world, Scheduled(sendAt, hasDraft), trace)
    }

    constructor (ghost w: World, sendAt: SendTime, hasDraft: bool)
      ensures Valid() && task.Idle? && world == w
      ensures View() == Scheduled(sendAt, hasDraft)
    {
      pending, sent, lock, nextToken := Some(Record(Pending, 0, sendAt, hasDraft)), None, None, 0;
      world, this.sendAt, this.hasDraft := w, sendAt, hasDraft;
      submissions, cancelled, task, trace := 0, false, Idle, [];
    }

    /** One more step of the run: the caller has already changed the files the way the step does. */
    ghost method Stepped(before: Queue, o: Outcome)
      requires before == Run(world, Scheduled(sendAt, hasDraft), trace) && before.tasks.Keys <= {0}
      requires View().(tasks := map[]) == Apply(world, before, 0, o).(tasks := map[])
      modifies this`task, this`trace
      ensures Valid() && task == TaskOf(Apply(world, before, 0, o), 0)
    {
      RunAppend(world, Scheduled(sendAt, hasDraft), trace, [Event(0, o)]);
      assert [Event(0, o)][1..] == [];
      OnlyThisTask(world, before, o);
      var after := Apply(world, before, 0, o);
      assert after == Run(world, Scheduled(sendAt, hasDraft), trace + [Event(0, o)]);
      task, trace := TaskOf(after, 0), trace + [Event(0, o)];
      assert View() == after;
    }

    /** So every promise about runs is one about calls. */
    lemma CallsKeepPromises()
      requires Valid() && ClaimsHold(world)
      ensures Bounded(View()) && InOnePlace(View())
    {
      ReachableInv(world, sendAt, hasDraft, trace);
    }

    /** What no step but a claim, a release or a submission changes. */
    twostate predicate KeepsRest()
      reads this
    {
      lock == old(lock) && nextToken == old(nextToken) && submissions == old(submissions) && cancelled == old(cancelled)
    }

    twostate predicate KeepsSubmissions()
      reads this
    {
      submissions == old(submissions) && sent == old(sent)
    }

    ghost method Start(o: Outcome)
      requires Valid() && task.Idle? && (o.StartCheck? || o.StartCancel?)
      modifies this`task, this`trace
      ensures Valid() && task == if o.StartCheck? then Reading(o.now) else CancelReading
    {
      Stepped(View(), o);
    }

    /** The read before the claim; the file's absence and a failed read both throw. */
    method ReadPending(now: int, works: bool) returns (r: Option<Record>)
      requires Valid() && task == Reading(now) && (works || world.firstReadMayFail)
      modifies this`task, this`trace
      ensures Valid() && r == if works then pending else None
      ensures task == if r.None? then ReadingFailure(None)
                      else if IsDelivered(r.value) || IsDue(r.value, now) then Claiming(now, IsDelivered(r.value))
                      else Idle
    {
      r := if works then pending else None;
      Stepped(View(), Result(works));
    }

    method ClaimSchedule(works: bool) returns (token: Option<nat>)
      requires Valid() && (task.Claiming? || task.CancelClaiming?)
      modifies this`task, this`trace, this`lock, this`nextToken
      ensures Valid() && token == (if works then Some(old(nextToken)) else None)
      ensures lock == if works then token else old(lock)
      ensures task == if token.None? then Idle
                      else if old(task).CancelClaiming? then CancelRereading(token.value)
                      else if old(task).delivered then Settling(token.value)
                      else Rereading(old(task).now, token.value)
    {
      ghost var before := View();
      token := None;
      if works {
        assert CanClaim(world, before);
        token, lock, nextToken := Some(nextToken), Some(nextToken), nextToken + 1;
      }
      Stepped(before, Result(works));
    }

    method ReleaseClaim(token: nat, works: bool)
      requires Valid() && task == Releasing(token)
      modifies this`task, this`trace, this`lock
      ensures Valid() && task.Idle?
      ensures lock == if works && old(lock) == Some(token) then None else old(lock)
    {
      ghost var before := View();
      if works && lock == Some(token) {
        lock := None;
      }
      Stepped(before, Result(works));
    }

    method Reread(token: nat, now: int, works: bool) returns (r: Option<Record>)
      requires Valid() && task == Rereading(now, token) && (works || world.rereadMayFail)
      modifies this`task, this`trace
      ensures Valid() && r == pending
      ensures task == if !works then ReadingFailure(Some(token))
                      else if r.None? || !IsDue(r.value, now) then Releasing(token)
                      else if r.value.attempts >= MAX_ATTEMPTS then GivingUp(token, r.value)
                      else MarkingSending(token, r.value)
    {
      r := pending;
      Stepped(View(), Result(works));
    }

    /** One writeScheduledFile: the whole record or nothing. */
    method WriteRecord(r: Record, works: bool)
      requires Valid()
      requires match task
               case GivingUp(_, exhausted) => r == exhausted.(status := Failed)
               case MarkingSending(_, queued) => r == Attempted(queued)
               case Restoring(_, queued) => r == queued
               case RecordingSent(_, sending) => r == sending.(status := Sent)
               case WritingFailure(_, failed) => r == failed
               case _ => false
      modifies this`task, this`trace, this`pending
      ensures Valid() && pending == if works then Some(r) else old(pending)
      ensures match old(task)
              case GivingUp(token, _) => task == if works then Releasing(token) else ReadingFailure(Some(token))
              case MarkingSending(token, queued) =>
                task == if works then Submitting(token, queued) else ReadingFailure(Some(token))
              case Restoring(token, _) => task == if works then Releasing(token) else ReadingFailure(Some(token))
              case RecordingSent(token, sending) => task == Moving(token, sending)
              case WritingFailure(claim, _) => task == AfterFailureTask(claim)
              case _ => true
    {
      ghost var before := View();
      if works {
        pending := Some(r);
      }
      Stepped(before, Result(works));
    }

    method SendEmail(ghost token: nat, ghost queued: Record, answer: Outcome)
      requires Valid() && task == Submitting(token, queued)
      requires answer.Accepted? || answer.AnswerLost? || answer.Refused? || answer.RateLimited?
      modifies this`task, this`trace, this`submissions
      ensures Valid() && submissions == old(submissions) + if answer.Accepted? || answer.AnswerLost? then 1 else 0
      ensures task == if answer.Accepted? then RecordingSent(token, Attempted(queued))
                      else if answer.RateLimited? then Restoring(token, queued)
                      else ReadingFailure(Some(token))
    {
      ghost var before := View();
      if answer.Accepted? || answer.AnswerLost? {
        submissions := submissions + 1;
      }
      Stepped(before, answer);
    }

    method MoveToSent(works: bool)
      requires Valid() && (task.Moving? || task.Settling?)
      modifies this`task, this`trace, this`pending, this`sent
      ensures Valid()
      ensures if works && old(pending).Some? then pending.None? && sent == old(pending)
              else pending == old(pending) && sent == old(sent)
      ensures task == if old(task).Moving? && old(task).sending.hasDraft then DroppingDraft(old(task).token)
                      else Releasing(old(task).token)
    {
      ghost var before := View();
      if works && pending.Some? {
        sent, pending := pending, None;
      }
      Stepped(before, Result(works));
    }

    /** Best effort: an error is swallowed, so the step is the same either way. */
    method DeleteDraft()
      requires Valid() && (task.DroppingDraft? || task.CancelDroppingDraft?)
      modifies this`task, this`trace
      ensures Valid() && task == if old(task).DroppingDraft? then Releasing(old(task).token)
                                 else Unlinking(old(task).token)
    {
      Stepped(View(), Ok);
    }

    method ReadForFailure(ghost claim: Option<nat>, works: bool) returns (r: Option<Record>)
      requires Valid() && task == ReadingFailure(claim)
      modifies this`task, this`trace
      ensures Valid() && r == if works then pending else None
      ensures task == if r.None? then AfterFailureTask(claim) else WritingFailure(claim, AfterFailure(r.value))
    {
      r := if works then pending else None;
      Stepped(View(), Result(works));
    }

    /** The two reads of a cancel. A record that is not pending throws, as an absent one does. */
    method ReadForCancel(works: bool) returns (r: Option<Record>)
      requires Valid() && (task.CancelReading? || task.CancelRereading?)
      modifies this`task, this`trace
      ensures Valid() && r == if works && pending.Some? && pending.value.status.Pending? then pending else None
      ensures match old(task)
              case CancelReading => task == if r.Some? then CancelClaiming else Idle
              case CancelRereading(token) =>
                task == if r.None? then Releasing(token)
                        else if r.value.hasDraft then CancelDroppingDraft(token) else Unlinking(token)
              case _ => true
    {
      r := if works && pending.Some? && pending.value.status.Pending? then pending else None;
      Stepped(View(), Result(works));
    }

    method Unlink(ghost token: nat, works: bool)
      requires Valid() && task == Unlinking(token) && pending.Some?
      modifies this`task, this`trace, this`pending, this`cancelled
      ensures Valid() && task == Releasing(token)
      ensures if works then pending.None? && cancelled else pending == old(pending) && cancelled == old(cancelled)
    {
      ghost var before := View();
      if works {
        pending, cancelled := None, true;
      }
      Stepped(before, Result(works));
    }

    // -------------------------------------------------------------- the source's methods

    method WriteSendFailure(ghost claim: Option<nat>, io: Io)
      requires Valid() && task == ReadingFailure(claim)
      modifies this
      ensures Valid() && task == AfterFailureTask(claim) && KeepsRest() && OnDisk() == Noted(old(OnDisk()), io)
    {
      var scheduled := ReadForFailure(claim, io.readFailure);
      if scheduled.Some? {
        var failed := scheduled.value;
        WriteRecord(failed.(status := if failed.attempts >= MAX_ATTEMPTS then Failed else Pending), io.writeFailure);
      }
    }

    /** The first write is the commit point; the move runs even when that write failed. */
    method RecordSent(ghost token: nat, sending: Record, io: Io)
      requires Valid() && task == RecordingSent(token, sending) && pending == Some(sending)
      modifies this
      ensures Valid() && KeepsRest() && task == if sending.hasDraft then DroppingDraft(token) else Releasing(token)
      ensures OnDisk() == Recorded(old(OnDisk()), sending, io)
    {
      WriteRecord(sending.(status := Sent), io.recordSent);
      MoveToSent(io.move);
    }

    /** None stands for a thrown error, which writeSendFailure then records. */
    method SendClaimedEmail(token: nat, queued: Record, io: Io) returns (d: Option<Delivery>)
      requires Valid() && task == MarkingSending(token, queued) && io.IsAnswered()
      modifies this
      ensures Valid() && lock == old(lock) && cancelled == old(cancelled)
      ensures task == if d.None? then ReadingFailure(Some(token)) else Releasing(token)
      ensures (OnDisk(), d) == AfterSend(old(OnDisk()), queued, io)
      ensures submissions == old(submissions) + if io.mark && (io.smtp.Accepted? || io.smtp.AnswerLost?) then 1 else 0
    {
      var sending := queued.(status := Sending, attempts := queued.attempts + 1);
      WriteRecord(sending, io.mark);
      if !io.mark {
        return None;
      }
      SendEmail(token, queued, io.smtp);
      if io.smtp.RateLimited? {
        WriteRecord(queued, io.restore);
        return if io.restore then Some(Deferred) else None;
      }
      if !io.smtp.Accepted? {
        return None;
      }
      RecordSent(token, sending, io);
      if sending.hasDraft {
        DeleteDraft();
      }
      return Some(DeliveredNow);
    }

    method SendIfStillDue(token: nat, now: int, io: Io) returns (d: Option<Delivery>)
      requires Valid() && task == Rereading(now, token) && io.Within(world)
      modifies this
      ensures Valid() && lock == old(lock) && cancelled == old(cancelled)
      ensures task == if d.None? then ReadingFailure(Some(token)) else Releasing(token)
      ensures (OnDisk(), d) == AfterRecheck(old(OnDisk()), now, io)
      ensures submissions == old(submissions) + if Submits(old(pending), now, io) then 1 else 0
      ensures io.reread && old(pending).Some? && old(pending).value.sendAt.At? && old(pending).value.sendAt.ms > now ==>
                d == Some(Skipped) && OnDisk() == old(OnDisk()) && submissions == old(submissions)
    {
      var current := Reread(token, now, io.reread);
      if !io.reread {
        return None;
      }
      if current.None? || !IsDue(current.value, now) {
        return Some(Skipped);
      }
      if current.value.attempts >= MAX_ATTEMPTS {
        WriteRecord(current.value.(status := Failed), io.giveUp);
        return if io.giveUp then Some(FailedNow) else None;
      }
      d := SendClaimedEmail(token, current.value, io);
    }

    /** What a check does once it has the claim, its failure note included. */
    method SettleOrSend(token: nat, delivered: bool, now: int, io: Io) returns (d: Delivery)
      requires Valid() && io.Within(world) && task == if delivered then Settling(token) else Rereading(now, token)
      modifies this
      ensures Valid() && task == Releasing(token) && lock == old(lock) && cancelled == old(cancelled)
      ensures (OnDisk(), d) == AfterClaim(old(OnDisk()), delivered, now, io)
      ensures submissions == old(submissions) + if !delivered && Submits(old(pending), now, io) then 1 else 0
    {
      if delivered {
        MoveToSent(io.move);
        return Skipped;
      }
      var outcome := SendIfStillDue(token, now, io);
      if outcome.None? {
        WriteSendFailure(Some(token), io);
        return FailedNow;
      }
      d := outcome.value;
    }

    method ClaimAndSend(delivered: bool, now: int, io: Io) returns (d: Delivery)
      requires Valid() && io.Within(world) && task == Claiming(now, delivered)
      modifies this
      ensures Valid() && task.Idle? && cancelled == old(cancelled)
      ensures (OnDisk(), d) == if io.claim then AfterClaim(old(OnDisk()), delivered, now, io)
                               else (old(OnDisk()), Skipped)
      ensures submissions == old(submissions)
                + if io.claim && !delivered && Submits(old(pending), now, io) then 1 else 0
      ensures lock == if !io.claim then old(lock) else if io.release then None else Some(old(nextToken))
    {
      var token := ClaimSchedule(io.claim);
      if token.None? {
        return Skipped;
      }
      d := SettleOrSend(token.value, delivered, now, io);
      ReleaseClaim(token.value, io.release);
    }

    method ProcessQueueFile(now: int, io: Io) returns (d: Delivery)
      requires Valid() && task.Idle? && io.Within(world)
      modifies this
      ensures Valid() && task.Idle? && cancelled == old(cancelled)
      ensures (OnDisk(), d) == AfterCheck(old(OnDisk()), now, io)
      ensures submissions == old(submissions)
                + if io.read && io.claim && Submits(old(pending), now, io) then 1 else 0
      // a claim it takes is given back when the release works
      ensures lock == old(lock) || lock == if io.release then None else Some(old(nextToken))
      // before its send time an entry is left alone
      ensures io.read && old(pending).Some? && !old(pending).value.status.Sent?
              && old(pending).value.sendAt.At? && old(pending).value.sendAt.ms > now ==>
                d == Skipped && OnDisk() == old(OnDisk()) && submissions == old(submissions)
    {
      Start(StartCheck(now));
      var scheduled := ReadPending(now, io.read);
      if scheduled.None? {
        WriteSendFailure(None, io);
        return FailedNow;
      }
      var delivered := IsDelivered(scheduled.value);
      if !delivered && !IsDue(scheduled.value, now) {
        return Skipped;
      }
      d := ClaimAndSend(delivered, now, io);
    }

    /** Under the claim: read again, drop the draft, remove the file. */
    method CancelClaimed(token: nat, io: Io) returns (removed: bool)
      requires Valid() && task == CancelRereading(token)
      modifies this
      ensures Valid() && task == Releasing(token) && KeepsSubmissions()
      ensures lock == old(lock) && sent == old(sent)
      ensures removed <==> old(pending).Some? && old(pending).value.status.Pending? && io.reread && io.unlink
      ensures if removed then pending.None? && cancelled else pending == old(pending) && cancelled == old(cancelled)
    {
      removed := false;
      var current := ReadForCancel(io.reread);
      if current.Some? {
        if current.value.hasDraft {
          DeleteDraft();
        }
        Unlink(token, io.unlink);
        removed := io.unlink;
      }
    }

    /** True when the entry was removed; the source throws on every other path. */
    method Cancel(io: Io) returns (removed: bool)
      requires Valid() && task.Idle?
      modifies this
      ensures Valid() && task.Idle? && KeepsSubmissions()
      ensures removed <==>
                && old(pending).Some? && old(pending).value.status.Pending?
                && io.read && io.claim && io.reread && io.unlink
      ensures if removed then pending.None? && cancelled else pending == old(pending) && cancelled == old(cancelled)
      ensures sent == old(sent) && (lock == old(lock) || lock == if io.release then None else Some(old(nextToken)))
    {
      removed := false;
      Start(StartCancel);
      var scheduled := ReadForCancel(io.read);
      if scheduled.None? {
        return;
      }
      var token := ClaimSchedule(io.claim);
      if token.None? {
        return;
      }
      removed := CancelClaimed(token.value, io);
      ReleaseClaim(token.value, io.release);
    }
  }
}
