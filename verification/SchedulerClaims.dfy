/**
 * The queue's tasks on the lock file itself: claiming and releasing are the file operations of
 * FileClaim, each a step of its own, and what a task has claimed is what its operations gave it.
 */
module SchedulerClaims {
  import opened ClaimFile
  import opened SchedulerProtocol
  import opened SchedulerSafety
  import opened Wrappers
  import FileClaim

  /** Task p of the queue is contender p for the lock file. */
  datatype Desk = Desk(queue: Queue, claim: FileClaim.State)

  /** A step that leaves the lock file alone, or the next operation on it; `stale` is what an age it reads would say. */
  datatype Turn = Acts(p: nat, outcome: Outcome) | OnLock(p: nat, stale: bool)

  predicate IsClaiming(t: Task) {
    t.Claiming? || t.CancelClaiming?
  }

  predicate UsesLock(t: Task) {
    IsClaiming(t) || t.Releasing?
  }

  /** The file decides who has the claim; the claim contract of the step system is not asked. */
  function Unchecked(w: World): World {
    w.(liveClaimMayLapse := true)
  }

  /** What the task's turn comes to in the step system; None while its acquisition or release goes on. */
  function Seen(t: Task, phase: FileClaim.Phase): Option<Outcome> {
    if IsClaiming(t) then
      (if phase.Holding? then Some(Ok) else if phase.Acquiring? then None else Some(Fail))
    else if phase.Releasing? then None
    else Some(Fail)
  }

  function OnLockStep(w: World, s: Desk, p: nat, stale: bool): Desk
    requires p < |s.claim.phases|
  {
    var t, phase := TaskOf(s.queue, p), s.claim.phases[p];
    if !UsesLock(t) then s
    else
      var e := if t.Releasing? && phase.Holding? then FileClaim.Release(p) else FileClaim.Proceed(p, stale);
      var claim := FileClaim.Step(s.claim, e);
      var seen := if phase.Releasing? then Some(Ok) else Seen(t, claim.phases[p]);
      Desk(if seen.Some? then Apply(Unchecked(w), s.queue, p, seen.value) else s.queue, claim)
  }

  function Step(w: World, s: Desk, e: Turn): Desk {
    if e.p >= |s.claim.phases| then s
    else match e
      case OnLock(p, stale) => OnLockStep(w, s, p, stale)
      case Acts(p, Crash) => Desk(Apply(Unchecked(w), s.queue, p, Crash), FileClaim.Step(s.claim, FileClaim.Crash(p)))
      case Acts(p, o) => if UsesLock(TaskOf(s.queue, p)) then s else s.(queue := Apply(Unchecked(w), s.queue, p, o))
  }

  function RunDesk(w: World, s: Desk, es: seq<Turn>): Desk
    decreases |es|
  {
    if es == [] then s else RunDesk(w, Step(w, s, es[0]), es[1..])
  }

  function Opened(contenders: nat, left: bool, sendAt: SendTime, draft: bool): Desk {
    Desk(Scheduled(sendAt, draft), FileClaim.Start(contenders, left))
  }

  // ------------------------------------------------------------------ two contenders: a run of the step system

  /** A contender's operations and its task are at the same place. */
  predicate InStep(t: Task, phase: FileClaim.Phase) {
    && (HeldToken(t).Some? <==> FileClaim.Active(phase))
    && (phase.Acquiring? ==> IsClaiming(t))
    && (phase.Releasing? ==> t.Releasing?)
    && (phase.Crashed? <==> t.Crashed?)
  }

  predicate Linked(s: Desk) {
    && (forall p | p in s.queue.tasks :: p < |s.claim.phases|)
    && (forall p | 0 <= p < |s.claim.phases| :: InStep(TaskOf(s.queue, p), s.claim.phases[p]))
  }

  /** Only the acting contender's phase changes. */
  lemma OthersPhases(s: FileClaim.State, e: FileClaim.Event)
    requires e.p < |s.phases|
    ensures var s' := FileClaim.Step(s, e);
            |s'.phases| == |s.phases| && forall q | 0 <= q < |s.phases| && q != e.p :: s'.phases[q] == s.phases[q]
  {
  }

  lemma OthersTasks(w: World, s: Queue, p: nat, o: Outcome)
    ensures forall q | q != p :: TaskOf(Apply(w, s, p, o), q) == TaskOf(s, q)
    ensures forall q | q in Apply(w, s, p, o).tasks :: q in s.tasks || q == p
  {
    var t := TaskOf(s, p);
    assert FilesAfter(w, s, t, o).tasks == s.tasks;
  }

  /** The task's turn, claim operations aside, leaves its claim as it was. */
  lemma TaskKeepsClaim(w: World, s: Queue, t: Task, o: Outcome)
    requires !UsesLock(t)
    ensures var t' := TaskAfter(w, s, t, o);
            && HeldToken(t').Some? == HeldToken(t).Some? && (t'.Crashed? <==> t.Crashed?)
  {
  }

  lemma ClaimTurn(w: World, s: Queue, t: Task, o: Outcome)
    requires w.liveClaimMayLapse && UsesLock(t) && (o.Ok? || o.Fail?)
    ensures var t' := TaskAfter(w, s, t, o);
            && (HeldToken(t').Some? <==> IsClaiming(t) && o.Ok?) && !t'.Crashed? && !IsClaiming(t')
            && (t'.Releasing? ==> IsClaiming(t))
  {
  }

  lemma StepKeepsLinked(w: World, s: Desk, e: Turn)
    requires Linked(s)
    ensures Linked(Step(w, s, e))
  {
    if e.p < |s.claim.phases| {
      var p, t := e.p, TaskOf(s.queue, e.p);
      if e.OnLock? && UsesLock(t) {
        LockTurn(w, s, p, e.stale);
      } else if e.Acts? {
        OthersTasks(Unchecked(w), s.queue, p, e.outcome);
        if e.outcome.Crash? {
          OthersPhases(s.claim, FileClaim.Crash(p));
        } else if !UsesLock(t) {
          TaskKeepsClaim(Unchecked(w), s.queue, t, e.outcome);
        }
      }
    }
  }

  lemma LockTurn(w: World, s: Desk, p: nat, stale: bool)
    requires Linked(s) && p < |s.claim.phases| && UsesLock(TaskOf(s.queue, p))
    ensures Linked(OnLockStep(w, s, p, stale))
  {
    var t, phase := TaskOf(s.queue, p), s.claim.phases[p];
    assert InStep(t, phase);
    OthersPhases(s.claim, FileClaim.Release(p));
    OthersPhases(s.claim, FileClaim.Proceed(p, stale));
    OthersTasks(Unchecked(w), s.queue, p, Ok);
    OthersTasks(Unchecked(w), s.queue, p, Fail);
    ClaimTurn(Unchecked(w), s.queue, t, Ok);
    ClaimTurn(Unchecked(w), s.queue, t, Fail);
  }

  /** The claim contract that exclusive claims keep. */
  function Checked(w: World): World {
    w.(liveClaimMayLapse := false)
  }

  lemma NoOneElseHolds(s: Desk, claim: FileClaim.State, p: nat)
    requires Linked(s) && FileClaim.BothKept(claim) && p < |claim.phases| == |s.claim.phases|
             && claim.phases[p].Holding?
    requires forall q | 0 <= q < |claim.phases| && q != p :: claim.phases[q] == s.claim.phases[q]
    requires HeldToken(TaskOf(s.queue, p)).None?
    ensures s.queue.lock.Some? ==> !HasLiveHolder(s.queue, s.queue.lock.value)
  {
    assert FileClaim.KeptBy(claim, p);
    forall q | q in s.queue.tasks ensures HeldToken(s.queue.tasks[q]).None? {
      assert InStep(TaskOf(s.queue, q), s.claim.phases[q]);
      if q != p {
        assert FileClaim.Other(claim, p) == claim.phases[q];
      }
    }
  }

  /** A step is one of the step system with its claim contract, or nothing there. */
  lemma StepIsSeen(w: World, s: Desk, e: Turn) returns (seen: seq<Event>)
    requires Linked(s) && FileClaim.BothKept(s.claim)
    ensures Step(w, s, e).queue == Run(Checked(w), s.queue, seen)
  {
    seen := [];
    if e.p < |s.claim.phases| {
      var t := TaskOf(s.queue, e.p);
      if e.OnLock? && UsesLock(t) {
        seen := LockStepIsSeen(w, s, e.p, e.stale);
      } else if e.Acts? && (e.outcome.Crash? || !UsesLock(t)) {
        seen := [Event(e.p, e.outcome)];
        assert seen[1..] == [];
      }
    }
  }

  lemma LockStepIsSeen(w: World, s: Desk, p: nat, stale: bool) returns (seen: seq<Event>)
    requires Linked(s) && FileClaim.BothKept(s.claim) && p < |s.claim.phases| && UsesLock(TaskOf(s.queue, p))
    ensures OnLockStep(w, s, p, stale).queue == Run(Checked(w), s.queue, seen)
  {
    var t, phase, next := TaskOf(s.queue, p), s.claim.phases[p], OnLockStep(w, s, p, stale);
    assert InStep(t, phase);
    seen := [];
    var o := if phase.Releasing? then Some(Ok) else Seen(t, next.claim.phases[p]);
    if o.Some? {
      if IsClaiming(t) && o.value.Ok? {
        FileClaim.StepKeepsBoth(s.claim, FileClaim.Proceed(p, stale));
        OthersPhases(s.claim, FileClaim.Proceed(p, stale));
        NoOneElseHolds(s, next.claim, p);
      }
      SameTurn(w, s.queue, p, o.value);
      seen := [Event(p, o.value)];
      assert seen[1..] == [];
    }
  }

  /** Where the claim contract lets the task have the claim, both worlds do the same. */
  lemma SameTurn(w: World, s: Queue, p: nat, o: Outcome)
    requires IsClaiming(TaskOf(s, p)) && !o.Fail? ==> CanClaim(Checked(w), s)
    requires o.Ok? || o.Fail?
    requires UsesLock(TaskOf(s, p))
    ensures Apply(Unchecked(w), s, p, o) == Apply(Checked(w), s, p, o)
  {
  }

  lemma StepKeepsClaims(w: World, s: Desk, e: Turn)
    requires Linked(s) && FileClaim.BothKept(s.claim)
    ensures Linked(Step(w, s, e)) && FileClaim.BothKept(Step(w, s, e).claim)
  {
    StepKeepsLinked(w, s, e);
    if e.p < |s.claim.phases| {
      FileClaim.StepKeepsBoth(s.claim, FileClaim.Crash(e.p));
      FileClaim.StepKeepsBoth(s.claim, FileClaim.Release(e.p));
      if e.OnLock? {
        FileClaim.StepKeepsBoth(s.claim, FileClaim.Proceed(e.p, e.stale));
      }
    }
  }

  /** With two contenders every run on the lock file is a run of the step system in which no live claim lapses. */
  lemma {:induction false} RunIsSeen(w: World, s: Desk, es: seq<Turn>) returns (seen: seq<Event>)
    requires Linked(s) && FileClaim.BothKept(s.claim)
    ensures RunDesk(w, s, es).queue == Run(Checked(w), s.queue, seen)
    ensures Linked(RunDesk(w, s, es)) && FileClaim.BothKept(RunDesk(w, s, es).claim)
    decreases |es|
  {
    if es == [] {
      seen := [];
    } else {
      var first := StepIsSeen(w, s, es[0]);
      StepKeepsClaims(w, s, es[0]);
      var rest := RunIsSeen(w, Step(w, s, es[0]), es[1..]);
      seen := first + rest;
      RunAppend(Checked(w), s.queue, first, rest);
    }
  }
}
