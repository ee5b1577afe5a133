/**
 * The hook service's batch queue: arrivals, batch timers, flushes chained one after another, and stop
 * and start at any moment. An event is one stretch of code between two awaits.
 */
module HookQueue {
  import opened Wrappers

  const MAX_PENDING_EMAILS: nat := 500

  type Email = string

  datatype Arrival = Arrival(email: Email, skipped: bool)

  /** The arrivals that were not skipped, in order. */
  function Kept(log: seq<Arrival>): seq<Email> {
    if log == [] then [] else Kept(log[..|log| - 1]) + (if log[|log| - 1].skipped then [] else [log[|log| - 1].email])
  }

  function EmailsOf(log: seq<Arrival>): seq<Email> {
    seq(|log|, i requires 0 <= i < |log| => log[i].email)
  }

  /** What leaves the queue at once: the batch of a flush, or what a stop throws away. */
  datatype Group = Flushed(emails: seq<Email>) | Dropped(emails: seq<Email>)

  function EmailsIn(groups: seq<Group>): seq<Email> {
    if groups == [] then [] else EmailsIn(groups[..|groups| - 1]) + groups[|groups| - 1].emails
  }

  /** An event's emails as they are logged: the first `room` kept, the rest skipped. */
  function Arrivals(emails: seq<Email>, room: nat): seq<Arrival> {
    seq(|emails|, i requires 0 <= i < |emails| => Arrival(emails[i], i >= room))
  }

  /** The emails there is room for. */
  function Accepted(emails: seq<Email>, room: nat): (accepted: seq<Email>)
    ensures |accepted| == if room < |emails| then room else |emails|
  {
    if room < |emails| then emails[..room] else emails
  }

  /** A flush as the chain holds it, with the timer that chained it; one that threw is settled too. */
  datatype Flush = Queued(timer: nat) | Running | Settled

  /** `batchTimer` names the timer last set; `armed` are the timers that will still fire. */
  datatype Queue = Queue(
    started: bool, pending: seq<Email>, batchTimer: Option<nat>, armed: set<nat>, nextTimer: nat,
    chain: seq<Flush>, groups: seq<Group>, log: seq<Arrival>)

  const EMPTY := Queue(false, [], None, {}, 0, [], [], [])

  datatype Event = Start | Stop | Arrive(emails: seq<Email>) | Fires(timer: nat) | Begins(k: nat) | Ends(k: nat)

  /** A flush begins once the one before it has settled. */
  predicate MayBegin(chain: seq<Flush>, k: nat) {
    k < |chain| && chain[k].Queued? && (k > 0 ==> chain[k - 1].Settled?)
  }

  function Room(q: Queue): nat {
    if |q.pending| <= MAX_PENDING_EMAILS then MAX_PENDING_EMAILS - |q.pending| else 0
  }

  function Grouped(groups: seq<Group>, last: Group): seq<Group> {
    if last.emails == [] then groups else groups + [last]
  }

  function After(q: Queue, e: Event): Queue {
    match e
    case Start => q.(started := true)
    case Stop =>
      q.(started := false, pending := [], batchTimer := None, groups := Grouped(q.groups, Dropped(q.pending)),
         armed := if q.batchTimer.Some? then q.armed - {q.batchTimer.value} else q.armed)
    case Arrive(emails) => if q.started then Arrived(q, emails) else q
    case Fires(t) => if t in q.armed then q.(armed := q.armed - {t}, chain := q.chain + [Queued(t)]) else q
    case Begins(k) =>
      if MayBegin(q.chain, k) then
        q.(batchTimer := None, pending := [], groups := Grouped(q.groups, Flushed(q.pending)),
           chain := q.chain[k := if q.pending == [] then Settled else Running])
      else q
    case Ends(k) => if k < |q.chain| && q.chain[k].Running? then q.(chain := q.chain[k := Settled]) else q
  }

  /** The queue takes what it has room for; a timer is set unless one is named already. */
  function Arrived(q: Queue, emails: seq<Email>): Queue {
    var sets := q.batchTimer.None?;
    q.(log := q.log + Arrivals(emails, Room(q)), pending := q.pending + Accepted(emails, Room(q)),
       batchTimer := if sets then Some(q.nextTimer) else q.batchTimer,
       armed := if sets then q.armed + {q.nextTimer} else q.armed,
       nextTimer := if sets then q.nextTimer + 1 else q.nextTimer)
  }

  function Run(q: Queue, es: seq<Event>): Queue
    decreases |es|
  {
    if es == [] then q else Run(After(q, es[0]), es[1..])
  }

  /** The emails that arrive while the service is started. */
  function Heard(q: Queue, es: seq<Event>): seq<Email>
    decreases |es|
  {
    if es == [] then []
    else (if es[0].Arrive? && q.started then es[0].emails else []) + Heard(After(q, es[0]), es[1..])
  }

  // -------------------------------------------------------------- what every run keeps

  lemma {:induction false} KeptAppend(log: seq<Arrival>, more: seq<Arrival>)
    ensures Kept(log + more) == Kept(log) + Kept(more)
    decreases |more|
  {
    if more == [] {
      assert log + more == log;
    } else {
      KeptAppend(log, more[..|more| - 1]);
      assert (log + more)[..|log + more| - 1] == log + more[..|more| - 1];
    }
  }

  lemma {:induction false} FirstAreKept(emails: seq<Email>, room: nat)
    ensures Kept(Arrivals(emails, room)) == Accepted(emails, room)
  {
    if emails != [] {
      var front := emails[..|emails| - 1];
      FirstAreKept(front, room);
      assert Arrivals(emails, room)[..|emails| - 1] == Arrivals(front, room);
      if room < |emails| {
        assert room < |front| ==> front[..room] == emails[..room];
      } else {
        assert emails == front + [emails[|emails| - 1]];
      }
    }
  }

  lemma QueueArrivals(log: seq<Arrival>, batched: seq<Email>, pending: seq<Email>, emails: seq<Email>, room: nat)
    requires Kept(log) == batched + pending
    ensures Kept(log + Arrivals(emails, room)) == batched + (pending + Accepted(emails, room))
  {
    KeptAppend(log, Arrivals(emails, room));
    FirstAreKept(emails, room);
    assert batched + pending + Accepted(emails, room) == batched + (pending + Accepted(emails, room));
  }

  lemma GroupedHolds(groups: seq<Group>, last: Group)
    ensures EmailsIn(Grouped(groups, last)) == EmailsIn(groups) + last.emails
  {
    if last.emails != [] {
      assert Grouped(groups, last)[..|groups|] == groups;
    }
  }

  /** Flushes settle in the order they were chained. */
  predicate InOrder(chain: seq<Flush>) {
    forall i, j | 0 <= i < j < |chain| && !chain[j].Queued? :: chain[i].Settled?
  }

  predicate WillFlush(q: Queue, t: nat) {
    t in q.armed || Queued(t) in q.chain
  }

  predicate Inv(q: Queue) {
    && |q.pending| <= MAX_PENDING_EMAILS
    && Kept(q.log) == EmailsIn(q.groups) + q.pending
    && (q.pending != [] ==> q.batchTimer.Some?)
    && (q.batchTimer.Some? ==> WillFlush(q, q.batchTimer.value))
    && (forall g | g in q.groups :: 0 < |g.emails| <= MAX_PENDING_EMAILS)
    && (forall t | t in q.armed :: t < q.nextTimer)
    && InOrder(q.chain)
  }

  /** A step of the chain changes one flush, and only the last that is not queued or the first that is. */
  lemma StaysInOrder(chain: seq<Flush>, k: nat, f: Flush)
    requires InOrder(chain) && k < |chain|
    requires (MayBegin(chain, k) && !f.Queued?) || (chain[k].Running? && f.Settled?)
    ensures InOrder(chain[k := f])
  {
    if MayBegin(chain, k) {
      assert forall i | 0 <= i < k :: chain[i].Settled?;
      assert forall j | k < j < |chain| :: chain[j].Queued?;
    }
  }

  lemma AfterKeepsInv(q: Queue, e: Event)
    requires Inv(q)
    ensures Inv(After(q, e))
  {
    match e
    case Start =>
    case Stop => GroupedHolds(q.groups, Dropped(q.pending));
    case Arrive(emails) => QueueArrivals(q.log, EmailsIn(q.groups), q.pending, emails, Room(q));
    case Fires(t) =>
      assert t in q.armed ==> After(q, e).chain[|q.chain|] == Queued(t);
      assert forall f | f in q.chain :: f in q.chain + [Queued(t)];
    case Begins(k) =>
      GroupedHolds(q.groups, Flushed(q.pending));
      if MayBegin(q.chain, k) {
        StaysInOrder(q.chain, k, if q.pending == [] then Settled else Running);
      }
    case Ends(k) =>
      if k < |q.chain| && q.chain[k].Running? {
        StaysInOrder(q.chain, k, Settled);
        assert forall i | 0 <= i < |q.chain| && i != k :: q.chain[k := Settled][i] == q.chain[i];
      }
  }

  lemma {:induction false} RunKeepsInv(q: Queue, es: seq<Event>)
    requires Inv(q)
    ensures Inv(Run(q, es))
    decreases |es|
  {
    if es != [] {
      AfterKeepsInv(q, es[0]);
      RunKeepsInv(After(q, es[0]), es[1..]);
    }
  }

  lemma {:induction false} RunLogs(q: Queue, es: seq<Event>)
    ensures EmailsOf(Run(q, es).log) == EmailsOf(q.log) + Heard(q, es)
    decreases |es|
  {
    if es != [] {
      RunLogs(After(q, es[0]), es[1..]);
      var heard := if es[0].Arrive? && q.started then es[0].emails else [];
      assert EmailsOf(After(q, es[0]).log) == EmailsOf(q.log) + heard;
      assert EmailsOf(q.log) + heard + Heard(After(q, es[0]), es[1..]) == EmailsOf(q.log) + Heard(q, es);
    }
  }

  /**
   * In every run, the emails heard are logged in order, and those not skipped stand, in order and once
   * each, in the batches, what stops threw away, and the queue; no batch is empty or too long.
   */
  lemma EveryEmailOnce(es: seq<Event>)
    ensures var q := Run(EMPTY, es);
            && EmailsOf(q.log) == Heard(EMPTY, es)
            && Kept(q.log) == EmailsIn(q.groups) + q.pending
            && (forall g | g in q.groups :: 0 < |g.emails| <= MAX_PENDING_EMAILS)
  {
    RunKeepsInv(EMPTY, es);
    RunLogs(EMPTY, es);
  }

  /** In every run at most one flush handles mail at a time, after all chained before it have settled. */
  lemma FlushesNeverOverlap(es: seq<Event>, i: nat, j: nat)
    requires i < |Run(EMPTY, es).chain| && j < |Run(EMPTY, es).chain| && Run(EMPTY, es).chain[i].Running?
    ensures j < i ==> Run(EMPTY, es).chain[j].Settled?
    ensures j > i ==> Run(EMPTY, es).chain[j].Queued?
  {
    RunKeepsInv(EMPTY, es);
  }

  /** The i-th event begins a flush that takes a batch. */
  predicate TakesBatch(es: seq<Event>, i: nat) {
    i < |es| && es[i].Begins? && |Run(EMPTY, es[..i]).groups| < |Run(EMPTY, es[..i + 1]).groups|
  }

  lemma {:induction false} RunsUntilItEnds(q: Queue, es: seq<Event>, k: nat)
    requires k < |q.chain| && q.chain[k].Running? && Ends(k) !in es
    ensures k < |Run(q, es).chain| && Run(q, es).chain[k].Running?
    decreases |es|
  {
    if es != [] {
      RunsUntilItEnds(After(q, es[0]), es[1..], k);
    }
  }

  lemma {:induction false} RunAppend(q: Queue, es: seq<Event>, more: seq<Event>)
    ensures Run(q, es + more) == Run(Run(q, es), more)
    decreases |es|
  {
    if es == [] {
      assert es + more == more;
    } else {
      assert (es + more)[1..] == es[1..] + more;
      RunAppend(After(q, es[0]), es[1..], more);
    }
  }

  /** In every run, between two batches taken stands the end of the first one's flush. */
  lemma BatchesTakeTurns(es: seq<Event>, i: nat, j: nat)
    requires i < j && TakesBatch(es, i) && TakesBatch(es, j)
    ensures exists m | i < m < j :: es[m] == Ends(es[i].k)
  {
    var k, between := es[i].k, es[i + 1..j];
    var begun, later := Run(EMPTY, es[..i + 1]), Run(EMPTY, es[..j]);
    RunSnoc(EMPTY, es[..i], es[i]);
    assert es[..i + 1] == es[..i] + [es[i]];
    RunSnoc(EMPTY, es[..j], es[j]);
    assert es[..j + 1] == es[..j] + [es[j]];
    RunAppend(EMPTY, es[..i + 1], between);
    assert es[..j] == es[..i + 1] + between;
    if Ends(k) !in between {
      RunsUntilItEnds(begun, between, k);
      RunKeepsInv(EMPTY, es[..j]);
      NoneBeginsBeside(later.chain, k, es[j].k);
    }
    var n :| 0 <= n < |between| && between[n] == Ends(k);
    assert es[i + 1 + n] == Ends(k);
  }

  lemma NoneBeginsBeside(chain: seq<Flush>, k: nat, later: nat)
    requires InOrder(chain) && k < |chain| && chain[k].Running?
    ensures !MayBegin(chain, later)
  {
  }

  /** In every run, no mail waits once no timer is armed and no flush is queued. */
  lemma NoneIsStranded(es: seq<Event>)
    requires var q := Run(EMPTY, es); q.armed == {} && forall f | f in q.chain :: !f.Queued?
    ensures Run(EMPTY, es).pending == [] && EmailsIn(Run(EMPTY, es).groups) == Kept(Run(EMPTY, es).log)
  {
    RunKeepsInv(EMPTY, es);
  }

  // -------------------------------------------------------------- how many timers

  predicate NoneQueued(chain: seq<Flush>) {
    forall i | 0 <= i < |chain| :: !chain[i].Queued?
  }

  /** At most one timer is armed or flush queued. */
  predicate OneToCome(q: Queue) {
    && (forall t, u | t in q.armed && u in q.armed :: t == u)
    && (forall i, j | 0 <= i < |q.chain| && 0 <= j < |q.chain| && q.chain[i].Queued? && q.chain[j].Queued? :: i == j)
    && (q.armed == {} || NoneQueued(q.chain))
  }

  /** The named timer is the one that is armed or has chained the queued flush. */
  predicate AllNamed(q: Queue) {
    && (forall t | t in q.armed :: q.batchTimer == Some(t))
    && (forall i | 0 <= i < |q.chain| && q.chain[i].Queued? :: q.batchTimer == Some(q.chain[i].timer))
  }

  predicate OneNamed(q: Queue) {
    OneToCome(q) && AllNamed(q)
  }

  /** Every stop finds no flush queued. */
  predicate CleanStops(q: Queue, es: seq<Event>)
    decreases |es|
  {
    es == [] || ((es[0].Stop? ==> NoneQueued(q.chain)) && CleanStops(After(q, es[0]), es[1..]))
  }

  lemma AfterKeepsOneNamed(q: Queue, e: Event)
    requires OneNamed(q) && (e.Stop? ==> NoneQueued(q.chain))
    ensures OneNamed(After(q, e))
  {
  }

  lemma {:induction false} RunKeepsOneNamed(q: Queue, es: seq<Event>)
    requires OneNamed(q) && CleanStops(q, es)
    ensures OneNamed(Run(q, es))
    decreases |es|
  {
    if es != [] {
      AfterKeepsOneNamed(q, es[0]);
      RunKeepsOneNamed(After(q, es[0]), es[1..]);
    }
  }

  /** From here on, while stops find no flush queued, there is at most one timer armed or flush queued. */
  ghost predicate StaysOne(q: Queue) {
    forall es | CleanStops(q, es) :: OneToCome(Run(q, es))
  }

  /** One arrival sets a timer beside whatever is to come and not named. */
  lemma ArrivalAddsATimer(q: Queue, b: Email)
    requires Inv(q) && OneToCome(q) && !AllNamed(q)
    ensures var es := [Start, Arrive([b])]; CleanStops(q, es) && !OneToCome(Run(q, es))
  {
    var es, q1 := [Start, Arrive([b])], After(q, Start);
    assert es[1..] == [Arrive([b])] && es[1..][1..] == [];
    assert CleanStops(q1, es[1..]);
    RunsTwo(q, es, 0);
    assert es[0..] == es && es[2..] == [];
    assert q.batchTimer.None?;
    assert q.nextTimer in Arrived(q1, [b]).armed && q.nextTimer !in q.armed;
  }

  /** In any state of any run, that is so exactly when the named timer is the only one to come. */
  lemma StaysOneExactly(q: Queue)
    requires Inv(q)
    ensures StaysOne(q) <==> OneNamed(q)
  {
    if OneNamed(q) {
      forall es | CleanStops(q, es) ensures OneToCome(Run(q, es)) {
        RunKeepsOneNamed(q, es);
      }
    } else if OneToCome(q) {
      ArrivalAddsATimer(q, "");
    } else {
      assert CleanStops(q, []) && Run(q, []) == q;
    }
  }

  /**
   * After a run whose stops found no flush queued: one more stop leaves at most one timer to come, in
   * every such continuation, if and only if it finds none queued either.
   */
  lemma StopLeavesOneTimerExactly(es: seq<Event>)
    requires CleanStops(EMPTY, es)
    ensures OneToCome(Run(EMPTY, es))
    ensures StaysOne(After(Run(EMPTY, es), Stop)) <==> NoneQueued(Run(EMPTY, es).chain)
  {
    var q := Run(EMPTY, es);
    RunKeepsOneNamed(EMPTY, es);
    RunKeepsInv(EMPTY, es);
    AfterKeepsInv(q, Stop);
    StaysOneExactly(After(q, Stop));
    if NoneQueued(q.chain) {
      AfterKeepsOneNamed(q, Stop);
    }
  }

  /** Without a stop no mail is thrown away. */
  lemma {:induction false} OnlyStopsDrop(q: Queue, es: seq<Event>)
    requires Stop !in es && forall g | g in q.groups :: g.Flushed?
    ensures forall g | g in Run(q, es).groups :: g.Flushed?
    decreases |es|
  {
    if es != [] {
      OnlyStopsDrop(After(q, es[0]), es[1..]);
    }
  }

  /** A stop cannot recall a flush that is queued: after a restart it unnames the new timer, and a second one is set. */
  lemma TwoTimersAfterAStop(a: Email, b: Email, c: Email) returns (es: seq<Event>)
    ensures Run(EMPTY, es).armed == {1, 2} && Run(EMPTY, es).groups == [Dropped([a]), Flushed([b])]
  {
    es := [Start, Arrive([a]), Fires(0), Stop, Start, Arrive([b]), Begins(0), Arrive([c])];
    var q2 := Queue(true, [a], Some(0), {0}, 1, [], [], [Arrival(a, false)]);
    var q4 := Queue(false, [], None, {}, 1, [Queued(0)], [Dropped([a])], q2.log);
    var q6 := Queue(true, [b], Some(1), {1}, 2, [Queued(0)], [Dropped([a])], q2.log + [Arrival(b, false)]);
    assert After(After(EMPTY, Start), Arrive([a])) == q2;
    assert After(After(q2, Fires(0)), Stop) == q4;
    assert After(After(q4, Start), Arrive([b])) == q6;
    RunsTwo(EMPTY, es, 0);
    RunsTwo(q2, es, 2);
    RunsTwo(q4, es, 4);
    RunsTwo(q6, es, 6);
    assert es[0..] == es && es[8..] == [];
    var q7 := After(q6, Begins(0));
    assert q7.batchTimer == None && q7.groups == [Dropped([a]), Flushed([b])] && q7.armed == {1} && q7.started;
  }

  lemma RunsTwo(q: Queue, es: seq<Event>, i: nat)
    requires i + 2 <= |es|
    ensures Run(q, es[i..]) == Run(After(After(q, es[i]), es[i + 1]), es[i + 2..])
  {
    assert es[i..][1..] == es[i + 1..] && es[i + 1..][1..] == es[i + 2..];
  }

  lemma {:induction false} RunSnoc(q: Queue, es: seq<Event>, e: Event)
    ensures Run(q, es + [e]) == After(Run(q, es), e)
    decreases |es|
  {
    if es == [] {
      assert [e][1..] == [];
    } else {
      assert (es + [e])[1..] == es[1..] + [e];
      RunSnoc(After(q, es[0]), es[1..], e);
    }
  }

  class HooksService {
    var started: bool
    var pending: seq<Email>
    var batchTimer: Option<nat>
    var flushChain: seq<Flush>
    var nextTimer: nat
    ghost var armed: set<nat>
    ghost var groups: seq<Group>
    ghost var log: seq<Arrival>
    ghost var events: seq<Event>

    ghost function View(): Queue
      reads this
    {
      Queue(started, pending, batchTimer, armed, nextTimer, flushChain, groups, log)
    }

    /** The state is that of a run, the one the service has seen. */
    ghost predicate Valid()
      reads this
    {
      View() == Run(EMPTY, events)
    }

    constructor ()
      ensures Valid() && events == []
    {
      started, pending, batchTimer, flushChain, nextTimer := false, [], None, [], 0;
      armed, groups, log, events := {}, [], [], [];
    }

    method OnNewEmail(emails: seq<Email>) returns (skipped: nat)
      requires Valid() && started
      modifies this
      ensures Valid() && events == old(events) + [Arrive(emails)]
      // an email is skipped exactly when the queue has no room for it
      ensures skipped == if |old(pending)| + |emails| <= 500 then 0 else |old(pending)| + |emails| - 500
      // and those are the last of the event
      ensures skipped <= |emails| && pending == old(pending) + emails[..|emails| - skipped]
      ensures batchTimer.Some? && (old(batchTimer).Some? ==> batchTimer == old(batchTimer))
    {
      RunKeepsInv(EMPTY, events);
      RunSnoc(EMPTY, events, Arrive(emails));
      events := events + [Arrive(emails)];
      var room := if MAX_PENDING_EMAILS > |pending| then MAX_PENDING_EMAILS - |pending| else 0;
      var accepted := Accepted(emails, room);
      skipped := |emails| - |accepted|;
      log := log + Arrivals(emails, room);
      pending := pending + accepted;
      if batchTimer == None {
        batchTimer := Some(nextTimer);
        armed := armed + {nextTimer};
        nextTimer := nextTimer + 1;
      }
    }

    method TimerFires(timer: nat)
      requires Valid() && timer in armed
      modifies this
      ensures Valid() && events == old(events) + [Fires(timer)]
    {
      RunSnoc(EMPTY, events, Fires(timer));
      events := events + [Fires(timer)];
      armed := armed - {timer};
      flushChain := flushChain + [Queued(timer)];
    }

    /** Up to its first await; with an empty batch there is none. */
    method FlushBatch(k: nat) returns (batch: seq<Email>)
      requires Valid() && MayBegin(flushChain, k)
      modifies this
      ensures Valid() && events == old(events) + [Begins(k)]
      ensures batch == old(pending) && pending == []
      // with a batch the flush is under way until it settles
      ensures flushChain == old(flushChain)[k := if batch == [] then Settled else Running]
    {
      RunSnoc(EMPTY, events, Begins(k));
      events := events + [Begins(k)];
      batchTimer := None;
      batch := pending;
      pending := [];
      if |batch| == 0 {
        flushChain := flushChain[k := Settled];
        return;
      }
      groups := groups + [Flushed(batch)];
      flushChain := flushChain[k := Running];
    }

    /** It worked through its batch, or threw. */
    method FlushSettles(k: nat)
      requires Valid() && k < |flushChain| && flushChain[k].Running?
      modifies this
      ensures Valid() && events == old(events) + [Ends(k)]
    {
      RunSnoc(EMPTY, events, Ends(k));
      events := events + [Ends(k)];
      flushChain := flushChain[k := Settled];
    }

    method StartListening()
      requires Valid()
      modifies this
      ensures Valid() && events == old(events) + [Start] && started
    {
      RunSnoc(EMPTY, events, Start);
      events := events + [Start];
      started := true;
    }

    method StopListening()
      requires Valid()
      modifies this
      ensures Valid() && events == old(events) + [Stop] && !started && pending == []
    {
      RunSnoc(EMPTY, events, Stop);
      events := events + [Stop];
      started := false;
      if batchTimer.Some? {
        armed := armed - {batchTimer.value};
        batchTimer := None;
      }
      if pending != [] {
        groups := groups + [Dropped(pending)];
      }
      pending := [];
    }
  }
}
