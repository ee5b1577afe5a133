/**
 * How long a failed connect keeps the next one away: the delay grows with each failure in a row and is
 * jittered. Times are milliseconds.
 */
module Backoff {
  import opened Wrappers

  const INITIAL_BACKOFF_MS: int := 1000
  const MAX_BACKOFF_MS: int := 60000
  const JITTER_RATIO: real := 0.25

  function NextBackoff(delayMs: int): int {
    if delayMs * 2 < MAX_BACKOFF_MS then delayMs * 2 else MAX_BACKOFF_MS
  }

  function Drawn(random: real, delayMs: int): real {
    random * delayMs as real
  }

  /** `random` is what Math.random gave: at least 0, below 1. */
  function WithJitter(delayMs: int, random: real): int {
    delayMs - (Drawn(random, delayMs) * JITTER_RATIO).Floor
  }

  datatype Failure = Failure(delayMs: int, retryAt: int)

  function AfterFailure(previous: Option<Failure>, now: int, random: real): Failure {
    var delayMs := if previous.Some? then NextBackoff(previous.value.delayMs) else INITIAL_BACKOFF_MS;
    Failure(delayMs, now + WithJitter(delayMs, random))
  }

  predicate Ready(failure: Option<Failure>, now: int) {
    failure.None? || failure.value.retryAt <= now
  }

  class ConnectBackoff {
    var failures: map<string, Failure>

    constructor ()
      ensures failures == map[]
    {
      failures := map[];
    }

    function Of(key: string): Option<Failure>
      reads this
    {
      if key in failures then Some(failures[key]) else None
    }

    /** None when the connect may go ahead, and otherwise how long it has to wait. */
    method AssertReady(key: string, now: int) returns (wait: Option<int>)
      ensures wait.None? <==> Ready(Of(key), now)
      ensures wait.Some? ==> key in failures && wait.value == failures[key].retryAt - now > 0
    {
      if key !in failures {
        return None;
      }
      var waitMs := failures[key].retryAt - now;
      wait := if waitMs <= 0 then None else Some(waitMs);
    }

    method RecordFailure(key: string, now: int, random: real)
      modifies this
      ensures failures == old(failures)[key := AfterFailure(old(Of(key)), now, random)]
    {
      var delayMs := if key in failures then NextBackoff(failures[key].delayMs) else INITIAL_BACKOFF_MS;
      failures := failures[key := Failure(delayMs, now + WithJitter(delayMs, random))];
    }

    method RecordSuccess(key: string)
      modifies this
      ensures failures == old(failures) - {key}
    {
      failures := failures - {key};
    }
  }

  // ------------------------------------------------------------------ a row of failures

  /** One failed connect: when it was allowed to start, when it failed, and the draw for its jitter. */
  datatype Attempt = Attempt(start: int, failedAt: int, random: real)

  predicate IsDraw(random: real) {
    0.0 <= random < 1.0
  }

  function AfterAll(attempts: seq<Attempt>): Option<Failure> {
    if attempts == [] then None
    else
      var last := attempts[|attempts| - 1];
      Some(AfterFailure(AfterAll(attempts[..|attempts| - 1]), last.failedAt, last.random))
  }

  /** Failures in a row, each connect let through by the failures before it. */
  predicate InARow(attempts: seq<Attempt>) {
    attempts == []
    || var before, last := attempts[..|attempts| - 1], attempts[|attempts| - 1];
       InARow(before) && IsDraw(last.random) && Ready(AfterAll(before), last.start)
  }

  lemma OneFailureMore(attempts: seq<Attempt>, a: Attempt)
    requires InARow(attempts) && IsDraw(a.random) && Ready(AfterAll(attempts), a.start)
    ensures InARow(attempts + [a])
            && AfterAll(attempts + [a]) == Some(AfterFailure(AfterAll(attempts), a.failedAt, a.random))
  {
    assert (attempts + [a])[..|attempts + [a]| - 1] == attempts;
  }

  function Pow2(n: nat): (p: nat)
    ensures p >= 1
  {
    if n == 0 then 1 else 2 * Pow2(n - 1)
  }

  /** The wait after the k-th failure in a row, before jitter. */
  function FullDelay(k: nat): int
    requires k > 0
  {
    if 1000 * Pow2(k - 1) < 60000 then 1000 * Pow2(k - 1) else 60000
  }

  lemma Shorter(random: real, delayMs: int)
    requires IsDraw(random) && delayMs > 0
    ensures 0.0 <= Drawn(random, delayMs) < delayMs as real
  {
  }

  lemma LessThanAQuarter(drawn: real, delayMs: int)
    requires 0.0 <= drawn < delayMs as real
    ensures 0 <= 4 * (drawn * JITTER_RATIO).Floor < delayMs
  {
    var n := (drawn * JITTER_RATIO).Floor;
    assert n as real <= drawn * JITTER_RATIO;
    assert (4 * n) as real <= drawn;
  }

  /** What is taken off is a quarter of the drawn share of the delay, in whole milliseconds. */
  lemma JitterTakesAQuarter(delayMs: int, random: real)
    requires delayMs > 0 && IsDraw(random)
    ensures var off := delayMs - WithJitter(delayMs, random);
            (4 * off) as real <= random * delayMs as real < (4 * off + 4) as real
  {
    var off := (Drawn(random, delayMs) * JITTER_RATIO).Floor;
    assert off as real <= Drawn(random, delayMs) * 0.25 < (off + 1) as real;
  }

  lemma JitterKeepsThreeQuarters(delayMs: int, random: real)
    requires delayMs > 0 && IsDraw(random)
    ensures 3 * delayMs < 4 * WithJitter(delayMs, random) <= 4 * delayMs
  {
    Shorter(random, delayMs);
    LessThanAQuarter(Drawn(random, delayMs), delayMs);
  }

  /** After the k-th failure in a row the next connect waits more than three quarters of min(1000 * 2^(k-1), 60000). */
  lemma {:induction false} DelayAfter(attempts: seq<Attempt>)
    requires InARow(attempts) && attempts != []
    ensures AfterAll(attempts).value.delayMs == FullDelay(|attempts|)
    ensures forall now | Ready(AfterAll(attempts), now) ::
              4 * (now - attempts[|attempts| - 1].failedAt) > 3 * FullDelay(|attempts|)
  {
    var before, last := attempts[..|attempts| - 1], attempts[|attempts| - 1];
    if before != [] {
      DelayAfter(before);
      assert Pow2(|attempts| - 1) == 2 * Pow2(|before| - 1);
    } else {
      assert FullDelay(1) == INITIAL_BACKOFF_MS;
    }
    JitterKeepsThreeQuarters(FullDelay(|attempts|), last.random);
  }

  /** And it is let through once min(1000 * 2^(k-1), 60000) ms have passed. */
  lemma ReadyInTime(attempts: seq<Attempt>, now: int)
    requires InARow(attempts) && attempts != []
    requires now >= attempts[|attempts| - 1].failedAt + FullDelay(|attempts|)
    ensures Ready(AfterAll(attempts), now)
  {
    DelayAfter(attempts);
    JitterKeepsThreeQuarters(FullDelay(|attempts|), attempts[|attempts| - 1].random);
  }

  function DelaySum(k: nat): int {
    if k == 0 then 0 else DelaySum(k - 1) + FullDelay(k)
  }

  predicate Forward(attempts: seq<Attempt>) {
    forall k | 0 <= k < |attempts| :: attempts[k].start <= attempts[k].failedAt
  }

  /** n failures in a row take longer than three quarters of all their waits together. */
  lemma {:induction false} FailuresTakeTheirTime(attempts: seq<Attempt>, now: int)
    requires InARow(attempts) && attempts != [] && Forward(attempts) && Ready(AfterAll(attempts), now)
    ensures 4 * (now - attempts[0].failedAt) > 3 * DelaySum(|attempts|)
  {
    var before, last := attempts[..|attempts| - 1], attempts[|attempts| - 1];
    DelayAfter(attempts);
    if before != [] {
      FailuresTakeTheirTime(before, last.start);
    } else {
      assert DelaySum(1) == DelaySum(0) + FullDelay(1);
    }
  }
}
