/**
 * The token bucket that limits sends per account. Times are milliseconds; `lastRefill` is a real
 * because a partial interval carries over. Rounding of doubles is not modelled.
 */
module RateLimiter {
  const WINDOW_MS: real := 60000.0

  datatype Bucket = Bucket(tokens: int, lastRefill: real)

  function Earned(max: nat, elapsed: real): int {
    (elapsed * max as real / WINDOW_MS).Floor
  }

  /** The whole tokens of a time: max a minute. */
  lemma EarnedMeans(max: nat, elapsed: real)
    ensures var n := Earned(max, elapsed);
            n as real * 60000.0 <= elapsed * max as real < (n + 1) as real * 60000.0
  {
  }

  /** Credits whole tokens; the clock moves only by what they cost, or to `now` when the bucket is full. */
  function Refill(max: nat, b: Bucket, now: real): Bucket {
    var earned := Earned(max, now - b.lastRefill);
    if b.tokens + earned >= max then Bucket(max, now)
    else if earned > 0 && max > 0 then
      Bucket(b.tokens + earned, b.lastRefill + earned as real * WINDOW_MS / max as real)
    else b
  }

  predicate InRange(max: nat, b: Bucket) {
    0 <= b.tokens <= max
  }

  /** A bucket after one call, and whether the call was let through. */
  function Consume(max: nat, b: Bucket, now: real): (Bucket, bool) {
    var refilled := Refill(max, b, now);
    if refilled.tokens > 0 then (refilled.(tokens := refilled.tokens - 1), true) else (refilled, false)
  }

  datatype Call = TryConsume(now: real) | Remaining(now: real)

  function After(max: nat, b: Bucket, call: Call): Bucket {
    if call.TryConsume? then Consume(max, b, call.now).0 else Refill(max, b, call.now)
  }

  function Allowed(max: nat, b: Bucket, call: Call): bool {
    call.TryConsume? && Consume(max, b, call.now).1
  }

  function State(max: nat, b: Bucket, calls: seq<Call>): Bucket {
    if calls == [] then b else After(max, State(max, b, calls[..|calls| - 1]), calls[|calls| - 1])
  }

  function Successes(max: nat, b: Bucket, calls: seq<Call>): nat {
    if calls == [] then 0
    else
      var before := calls[..|calls| - 1];
      Successes(max, b, before) + (if Allowed(max, State(max, b, before), calls[|calls| - 1]) then 1 else 0)
  }

  /** What the limiter does for one account: the first call that needs a bucket finds it full. */
  function Fresh(max: nat, first: real): Bucket {
    Bucket(max, first)
  }

  // ------------------------------------------------------------------ the limiter

  class RateLimiter {
    var buckets: map<string, Bucket>
    const maxTokens: nat

    constructor (maxPerMinute: nat)
      ensures buckets == map[] && maxTokens == maxPerMinute
    {
      buckets, maxTokens := map[], maxPerMinute;
    }

    /** The bucket an account has, or would be given now. */
    function BucketOf(account: string, now: real): Bucket
      reads this
    {
      if account in buckets then buckets[account] else Fresh(maxTokens, now)
    }

    method TryConsume(account: string, now: real) returns (allowed: bool)
      modifies this`buckets
      ensures allowed == Allowed(maxTokens, old(BucketOf(account, now)), Call.TryConsume(now))
      ensures buckets == old(buckets)[account := After(maxTokens, old(BucketOf(account, now)), Call.TryConsume(now))]
    {
      var bucket := RefillBucket(account, now);
      if bucket.tokens > 0 {
        buckets := buckets[account := bucket.(tokens := bucket.tokens - 1)];
        return true;
      }
      return false;
    }

    /** Asking about an account that never sent leaves no bucket behind. */
    method Remaining(account: string, now: real) returns (tokens: int)
      modifies this`buckets
      ensures tokens == old(if account in buckets then Refill(maxTokens, buckets[account], now).tokens else maxTokens)
      ensures account !in old(buckets) ==> buckets == old(buckets)
      ensures account in old(buckets) ==>
                buckets == old(buckets)[account := After(maxTokens, old(buckets[account]), Call.Remaining(now))]
    {
      if account !in buckets {
        return maxTokens;
      }
      var bucket := RefillBucket(account, now);
      tokens := bucket.tokens;
    }

    method RefillBucket(account: string, now: real) returns (next: Bucket)
      modifies this`buckets
      ensures next == Refill(maxTokens, old(BucketOf(account, now)), now)
      ensures buckets == old(buckets)[account := next]
    {
      var bucket := if account in buckets then buckets[account] else Fresh(maxTokens, now);
      var earned := Earned(maxTokens, now - bucket.lastRefill);
      next := bucket;
      if bucket.tokens + earned >= maxTokens {
        next := Bucket(maxTokens, now);
      } else if earned > 0 && maxTokens > 0 {
        next := Bucket(bucket.tokens + earned, bucket.lastRefill + earned as real * WINDOW_MS / maxTokens as real);
      }
      buckets := buckets[account := next];
    }
  }

  // ------------------------------------------------------------------ the bound

  /** Tokens the clock has paid for up to a time. */
  function Paid(max: nat, t: real): real {
    t * max as real / WINDOW_MS
  }

  lemma PaidDifference(max: nat, a: real, b: real)
    ensures Paid(max, b) - Paid(max, a) == (b - a) * max as real / WINDOW_MS
    ensures a <= b ==> Paid(max, a) <= Paid(max, b)
  {
    assert b * max as real - a * max as real == (b - a) * max as real;
  }

  lemma CostOfTokens(max: nat, tokens: int)
    requires max > 0
    ensures Paid(max, tokens as real * WINDOW_MS / max as real) == tokens as real
  {
    var m := max as real;
    var cost := tokens as real * WINDOW_MS / m;
    assert cost * m == tokens as real * WINDOW_MS;
  }

  /** One refill creates no token the clock did not pay for. */
  lemma RefillIsPaid(max: nat, b: Bucket, now: real)
    requires InRange(max, b)
    ensures var r := Refill(max, b, now);
            && InRange(max, r)
            && r.tokens as real - Paid(max, r.lastRefill) <= b.tokens as real - Paid(max, b.lastRefill)
            && (r.lastRefill <= now || r == b)
  {
    var earned := Earned(max, now - b.lastRefill);
    PaidDifference(max, b.lastRefill, now);
    if b.tokens + earned >= max {
    } else if earned > 0 && max > 0 {
      var cost := earned as real * WINDOW_MS / max as real;
      CostOfTokens(max, earned);
      PaidDifference(max, b.lastRefill, b.lastRefill + cost);
      if b.lastRefill + cost > now {
        PaidDifference(max, now, b.lastRefill + cost);
        Overpaid(max, now, b.lastRefill + cost);
      }
    }
  }

  lemma Overpaid(max: nat, a: real, b: real)
    requires max > 0 && a < b
    ensures Paid(max, a) < Paid(max, b)
  {
    var earned := (b - a) * max as real;
    assert earned > 0.0 && earned / WINDOW_MS > 0.0;
    PaidDifference(max, a, b);
  }

  lemma {:induction false} StaysInRange(max: nat, b: Bucket, calls: seq<Call>)
    requires InRange(max, b)
    ensures InRange(max, State(max, b, calls))
  {
    if calls != [] {
      StaysInRange(max, b, calls[..|calls| - 1]);
      RefillIsPaid(max, State(max, b, calls[..|calls| - 1]), calls[|calls| - 1].now);
    }
  }

  predicate NoneAfter(calls: seq<Call>, latest: real) {
    forall k | 0 <= k < |calls| :: calls[k].now <= latest
  }

  /** Whatever the clock does: successes so far plus tokens left are paid for. */
  lemma {:induction false} EveryTokenIsPaid(max: nat, b: Bucket, calls: seq<Call>)
    requires InRange(max, b)
    ensures var s := State(max, b, calls);
            && InRange(max, s)
            && Successes(max, b, calls) as real + s.tokens as real - Paid(max, s.lastRefill)
               <= b.tokens as real - Paid(max, b.lastRefill)
    ensures forall latest: real | b.lastRefill <= latest && NoneAfter(calls, latest) ::
              State(max, b, calls).lastRefill <= latest
  {
    if calls != [] {
      var before, last := calls[..|calls| - 1], calls[|calls| - 1];
      EveryTokenIsPaid(max, b, before);
      RefillIsPaid(max, State(max, b, before), last.now);
      forall latest: real | b.lastRefill <= latest && NoneAfter(calls, latest)
        ensures State(max, b, calls).lastRefill <= latest
      {
        assert NoneAfter(before, latest);
      }
    }
  }

  lemma WithinPaid(max: nat, sent: int, tokens: int, from: real, at: real, latest: real)
    requires sent as real + tokens as real - Paid(max, at) <= max as real - Paid(max, from)
    requires tokens >= 0 && at <= latest
    ensures sent <= max + Earned(max, latest - from)
  {
    PaidDifference(max, at, latest);
    PaidDifference(max, from, latest);
    var paid := (latest - from) * max as real / WINDOW_MS;
    assert (sent - max) as real <= paid;
  }

  /**
   * From an account's first send on, for any clock readings, even ones that go backwards: no more
   * sends than a full bucket and what the time to the latest reading pays for.
   */
  lemma SendsAreBounded(max: nat, first: real, calls: seq<Call>, latest: real)
    requires first <= latest && NoneAfter(calls, latest)
    ensures Successes(max, Fresh(max, first), calls) <= max + Earned(max, latest - first)
  {
    var b := Fresh(max, first);
    EveryTokenIsPaid(max, b, calls);
    var s := State(max, b, calls);
    WithinPaid(max, Successes(max, b, calls), s.tokens, first, s.lastRefill, latest);
  }

  // ------------------------------------------------------------------ any stretch of time

  predicate Forward(b: Bucket, calls: seq<Call>) {
    && (forall k | 0 <= k < |calls| :: b.lastRefill <= calls[k].now)
    && forall j, k | 0 <= j < k < |calls| :: calls[j].now <= calls[k].now
  }

  /** A refill leaves less than one token's worth of time uncredited. */
  lemma RefillIsCurrent(max: nat, b: Bucket, now: real)
    requires InRange(max, b) && b.lastRefill <= now
    ensures var r := Refill(max, b, now); r.tokens as real - Paid(max, r.lastRefill) <= max as real - Paid(max, now)
    ensures Refill(max, b, now).lastRefill <= now
  {
    var earned := Earned(max, now - b.lastRefill);
    PaidDifference(max, b.lastRefill, now);
    RefillIsPaid(max, b, now);
    assert earned >= 0;
    if b.tokens + earned < max && earned > 0 {
      var cost := earned as real * WINDOW_MS / max as real;
      CostOfTokens(max, earned);
      PaidDifference(max, b.lastRefill, b.lastRefill + cost);
    }
  }

  /** Under a clock that only goes forward the same bound holds from any call on, whatever came before. */
  lemma {:induction false} SendsInAnyStretch(max: nat, b: Bucket, calls: seq<Call>, latest: real)
    requires InRange(max, b) && Forward(b, calls) && calls != [] && NoneAfter(calls, latest)
    ensures Successes(max, b, calls) <= max + Earned(max, latest - calls[0].now)
  {
    var start := calls[0].now;
    var b' := Refill(max, b, start);
    RefillIsCurrent(max, b, start);
    RefillIsPaid(max, b, start);
    RefillFirst(max, b, calls);
    EveryTokenIsPaid(max, b', calls);
    var s := State(max, b', calls);
    WithinPaid(max, Successes(max, b', calls), s.tokens, start, s.lastRefill, latest);
  }

  // ------------------------------------------------------------------ refilling early changes nothing

  lemma FloorShift(x: real, n: int)
    ensures (x - n as real).Floor == x.Floor - n
  {
  }

  lemma EarnedInTwoSteps(max: nat, last: real, t1: real, t2: real)
    requires max > 0
    ensures var earned := Earned(max, t1 - last);
            Earned(max, t2 - (last + earned as real * WINDOW_MS / max as real)) == Earned(max, t2 - last) - earned
  {
    var earned := Earned(max, t1 - last);
    var cost := earned as real * WINDOW_MS / max as real;
    CostOfTokens(max, earned);
    PaidDifference(max, last, t2);
    PaidDifference(max, last, last + cost);
    PaidDifference(max, last + cost, t2);
    FloorShift((t2 - last) * max as real / WINDOW_MS, earned);
  }

  lemma EarnedGrows(max: nat, a: real, b: real)
    requires a <= b
    ensures Earned(max, a) <= Earned(max, b)
  {
    assert a * max as real <= b * max as real;
  }

  /** Refilling at t1 and then at t2 is refilling at t2: carry, saturation and all. */
  lemma RefillTwice(max: nat, b: Bucket, t1: real, t2: real)
    requires InRange(max, b) && t1 <= t2
    ensures Refill(max, Refill(max, b, t1), t2) == Refill(max, b, t2)
  {
    EarnedGrows(max, t1 - b.lastRefill, t2 - b.lastRefill);
    EarnedGrows(max, 0.0, t2 - t1);
    var earned := Earned(max, t1 - b.lastRefill);
    if b.tokens + earned < max && earned > 0 && max > 0 {
      var cost := earned as real * WINDOW_MS / max as real;
      EarnedInTwoSteps(max, b.lastRefill, t1, t2);
      RealSum(b.lastRefill, earned, Earned(max, t2 - b.lastRefill), max);
    }
  }

  lemma RealSum(last: real, a: int, b: int, max: nat)
    requires max > 0
    ensures last + a as real * WINDOW_MS / max as real + (b - a) as real * WINDOW_MS / max as real
            == last + b as real * WINDOW_MS / max as real
  {
    var m := max as real;
    var x, y, z := a as real * WINDOW_MS / m, (b - a) as real * WINDOW_MS / m, b as real * WINDOW_MS / m;
    assert (x + y) * m == z * m;
  }

  lemma RefillFirst(max: nat, b: Bucket, calls: seq<Call>)
    requires InRange(max, b) && calls != []
    ensures Successes(max, Refill(max, b, calls[0].now), calls) == Successes(max, b, calls)
    ensures State(max, Refill(max, b, calls[0].now), calls) == State(max, b, calls)
  {
    RefillFirstUpTo(max, b, calls, |calls|);
    assert calls[..|calls|] == calls;
  }

  lemma {:induction false} RefillFirstUpTo(max: nat, b: Bucket, calls: seq<Call>, n: nat)
    requires InRange(max, b) && 1 <= n <= |calls|
    ensures Successes(max, Refill(max, b, calls[0].now), calls[..n]) == Successes(max, b, calls[..n])
    ensures State(max, Refill(max, b, calls[0].now), calls[..n]) == State(max, b, calls[..n])
  {
    assert calls[..n][..n - 1] == calls[..n - 1];
    if n == 1 {
      RefillTwice(max, b, calls[0].now, calls[0].now);
      assert calls[..0] == [];
    } else {
      RefillFirstUpTo(max, b, calls, n - 1);
    }
  }

  /** The calls that try to send. */
  function Sends(calls: seq<Call>): seq<Call> {
    if calls == [] then []
    else Sends(calls[..|calls| - 1]) + (if calls[|calls| - 1].TryConsume? then [calls[|calls| - 1]] else [])
  }

  /** Buckets that a refill at any time from t on makes equal. */
  ghost predicate SameFrom(max: nat, a: Bucket, b: Bucket, t: real) {
    forall t': real | t <= t' :: Refill(max, a, t') == Refill(max, b, t')
  }

  lemma SameAfter(max: nat, a: Bucket, b: Bucket, call: Call)
    requires InRange(max, a) && InRange(max, b) && SameFrom(max, a, b, call.now)
    ensures Allowed(max, a, call) == Allowed(max, b, call)
    ensures call.TryConsume? ==> After(max, a, call) == After(max, b, call)
    ensures call.Remaining? ==> SameFrom(max, a, After(max, b, call), call.now)
  {
    assert Refill(max, a, call.now) == Refill(max, b, call.now);
    if call.Remaining? {
      forall t | call.now <= t ensures Refill(max, a, t) == Refill(max, After(max, b, call), t) {
        RefillTwice(max, b, call.now, t);
      }
    }
  }

  /** Asking how many tokens remain never changes what a later send is told, as long as the clock goes forward. */
  lemma {:induction false} AskingChangesNothing(max: nat, b: Bucket, calls: seq<Call>, t: real)
    requires InRange(max, b) && Forward(b, calls) && NoneAfter(calls, t)
    ensures Successes(max, b, Sends(calls)) == Successes(max, b, calls)
    ensures SameFrom(max, State(max, b, Sends(calls)), State(max, b, calls), t)
  {
    if calls != [] {
      var before, last := calls[..|calls| - 1], calls[|calls| - 1];
      AskingChangesNothing(max, b, before, last.now);
      StaysInRange(max, b, before);
      StaysInRange(max, b, Sends(before));
      OneCallMore(max, b, Sends(before), before, last, t);
      assert calls == before + [last] && Sends(calls) == Sends(before) + (if last.TryConsume? then [last] else []);
    }
  }

  lemma OneCallMore(max: nat, b: Bucket, sends: seq<Call>, before: seq<Call>, last: Call, t: real)
    requires InRange(max, State(max, b, sends)) && InRange(max, State(max, b, before)) && last.now <= t
    requires SameFrom(max, State(max, b, sends), State(max, b, before), last.now)
    ensures var more := sends + (if last.TryConsume? then [last] else []);
            && SameFrom(max, State(max, b, more), State(max, b, before + [last]), t)
            && Successes(max, b, more) - Successes(max, b, sends)
               == Successes(max, b, before + [last]) - Successes(max, b, before)
  {
    SameAfter(max, State(max, b, sends), State(max, b, before), last);
    assert (before + [last])[..|before + [last]| - 1] == before;
    if last.TryConsume? {
      assert (sends + [last])[..|sends + [last]| - 1] == sends;
    } else {
      assert sends + [] == sends;
    }
  }

  // ------------------------------------------------------------------ when a send is let through

  /** How many sends were let through from the i-th call on. */
  function SentSince(max: nat, first: real, calls: seq<Call>, i: nat): int
    requires i <= |calls|
  {
    Successes(max, Fresh(max, first), calls) - Successes(max, Fresh(max, first), calls[..i])
  }

  /** The time of the i-th call, or now. */
  function TimeOf(calls: seq<Call>, i: nat, now: real): real {
    if i < |calls| then calls[i].now else now
  }

  /** What n tokens cost in time. */
  function Cost(max: nat, n: int): real
    requires max > 0
  {
    n as real * WINDOW_MS / max as real
  }

  /** The bucket was full at time t, n tokens were credited since, and all that is not left was sent. */
  predicate Tally(max: nat, sent: int, s: Bucket, t: real, n: nat)
    requires max > 0
  {
    sent + s.tokens == max + n && s.lastRefill == t + Cost(max, n)
  }

  /** The bucket was full at the i-th call. */
  ghost predicate CountedFrom(max: nat, first: real, calls: seq<Call>, i: nat, n: nat)
    requires max > 0
  {
    i < |calls| && Tally(max, SentSince(max, first, calls, i), State(max, Fresh(max, first), calls), calls[i].now, n)
  }

  lemma CostAdds(max: nat, n: int, m: int)
    requires max > 0
    ensures Cost(max, n) + Cost(max, m) == Cost(max, n + m) && Cost(max, 0) == 0.0
  {
    RealSum(0.0, n, n + m, max);
  }

  /** One call at a time: the count goes on, or begins anew at a full bucket. */
  lemma TallyStep(max: nat, sent: int, s: Bucket, t: real, n: nat, c: Call) returns (anew: bool, n': nat)
    requires max > 0 && Tally(max, sent, s, t, n) && InRange(max, s) && s.lastRefill <= c.now
    ensures var let := if Allowed(max, s, c) then 1 else 0;
            if anew then Tally(max, let, After(max, s, c), c.now, n')
            else Tally(max, sent + let, After(max, s, c), t, n')
  {
    EarnedSinceLast(max, s.lastRefill, c.now);
    var earned := Earned(max, c.now - s.lastRefill);
    anew := s.tokens + earned >= max;
    if anew {
      CostAdds(max, 0, 0);
      n' := 0;
    } else {
      CostAdds(max, n, earned);
      n' := n + earned;
    }
  }

  lemma OneMore(max: nat, b: Bucket, calls: seq<Call>, c: Call)
    ensures State(max, b, calls + [c]) == After(max, State(max, b, calls), c)
    ensures Successes(max, b, calls + [c])
            == Successes(max, b, calls) + if Allowed(max, State(max, b, calls), c) then 1 else 0
  {
    assert (calls + [c])[..|calls + [c]| - 1] == calls;
  }

  /** Tokens credited already and tokens earned since are the tokens of the whole time. */
  lemma EarnedSinceFull(max: nat, t: real, n: nat, last: real, now: real)
    requires max > 0 && last == t + n as real * WINDOW_MS / max as real
    ensures Earned(max, now - last) == Earned(max, now - t) - n
  {
    CostOfTokens(max, n);
    PaidDifference(max, t, now);
    PaidDifference(max, t, last);
    PaidDifference(max, last, now);
    FloorShift((now - t) * max as real / WINDOW_MS, n);
  }

  lemma EarnedSinceLast(max: nat, last: real, now: real)
    requires last <= now
    ensures Earned(max, now - last) >= 0
  {
    EarnedGrows(max, 0.0, now - last);
  }

  lemma SentOneMore(max: nat, first: real, before: seq<Call>, c: Call, i: nat)
    requires i <= |before|
    ensures SentSince(max, first, before + [c], i)
            == SentSince(max, first, before, i)
               + if Allowed(max, State(max, Fresh(max, first), before), c) then 1 else 0
    ensures SentSince(max, first, before, |before|) == 0
  {
    OneMore(max, Fresh(max, first), before, c);
    assert (before + [c])[..i] == before[..i] && before[..|before|] == before;
  }

  lemma FirstCallCounts(max: nat, first: real, c: Call)
    requires max > 0 && first <= c.now
    ensures CountedFrom(max, first, [c], 0, 0)
  {
    OneMore(max, Fresh(max, first), [], c);
    assert [] + [c] == [c] && [c][..0] == [];
    EarnedSinceLast(max, first, c.now);
    CostAdds(max, 0, 0);
  }

  /** Some call found the bucket full, and nothing was lost since. */
  lemma {:induction false} CountsFromAFullBucket(max: nat, first: real, calls: seq<Call>) returns (i: nat, n: nat)
    requires max > 0 && calls != [] && Forward(Fresh(max, first), calls)
    ensures CountedFrom(max, first, calls, i, n)
  {
    var before, c, b := calls[..|calls| - 1], calls[|calls| - 1], Fresh(max, first);
    assert calls == before + [c];
    if before == [] {
      FirstCallCounts(max, first, c);
      i, n := 0, 0;
    } else {
      i, n := CountsFromAFullBucket(max, first, before);
      StaysInRange(max, b, before);
      EveryTokenIsPaid(max, b, before);
      assert NoneAfter(before, c.now);
      SentOneMore(max, first, before, c, i);
      SentOneMore(max, first, before, c, |before|);
      OneMore(max, b, before, c);
      var anew;
      anew, n := TallyStep(max, SentSince(max, first, before, i), State(max, b, before), calls[i].now, n, c);
      i := if anew then |before| else i;
    }
  }

  /** A refused send: since some call, all of a full bucket and all the time has earned since has been sent. */
  lemma RefusedWhenSpent(max: nat, first: real, calls: seq<Call>, now: real) returns (i: nat)
    requires Forward(Fresh(max, first), calls + [Call.TryConsume(now)])
    requires !Allowed(max, State(max, Fresh(max, first), calls), Call.TryConsume(now))
    ensures i <= |calls| && SentSince(max, first, calls, i) >= max + Earned(max, now - TimeOf(calls, i, now))
  {
    var b := Fresh(max, first);
    var s := State(max, b, calls);
    ForwardMeans(b, calls, Call.TryConsume(now), 0);
    assert calls[..|calls|] == calls;
    StaysInRange(max, b, calls);
    if max == 0 || calls == [] {
      EarnedSinceLast(max, first, now);
      i := |calls|;
    } else {
      var n;
      i, n := CountsFromAFullBucket(max, first, calls);
      assert NoneAfter(calls, now);
      EveryTokenIsPaid(max, b, calls);
      EarnedSinceLast(max, s.lastRefill, now);
      EarnedSinceFull(max, calls[i].now, n, s.lastRefill, now);
    }
  }

  /** The bucket's clock is never ahead of the calls. */
  lemma StateIsPast(max: nat, b: Bucket, calls: seq<Call>, latest: real)
    requires InRange(max, b) && b.lastRefill <= latest && NoneAfter(calls, latest)
    ensures InRange(max, State(max, b, calls)) && State(max, b, calls).lastRefill <= latest
  {
    EveryTokenIsPaid(max, b, calls);
  }

  lemma ForwardMeans(b: Bucket, calls: seq<Call>, c: Call, i: nat)
    requires Forward(b, calls + [c]) && i <= |calls|
    ensures Forward(b, calls) && NoneAfter(calls, c.now)
    ensures var rest := calls[i..] + [c];
            && b.lastRefill <= rest[0].now && NoneAfter(calls[..i], rest[0].now) && NoneAfter(rest, c.now)
            && forall j, k | 0 <= j < k < |rest| :: rest[j].now <= rest[k].now
    ensures calls != [] ==> NoneAfter(calls, calls[|calls| - 1].now) && b.lastRefill <= calls[|calls| - 1].now
  {
    var all, rest := calls + [c], calls[i..] + [c];
    assert all[|calls|] == c && forall k | 0 <= k < |calls| :: all[k] == calls[k];
    assert forall k | 0 <= k < |rest| :: rest[k] == all[i + k];
  }

  /** One let through: since every call, fewer were sent than a full bucket and what the time has earned since. */
  lemma AllowedWithinBound(max: nat, first: real, calls: seq<Call>, now: real, i: nat)
    requires Forward(Fresh(max, first), calls + [Call.TryConsume(now)]) && i <= |calls|
    requires Allowed(max, State(max, Fresh(max, first), calls), Call.TryConsume(now))
    ensures SentSince(max, first, calls, i) < max + Earned(max, now - TimeOf(calls, i, now))
  {
    OneMore(max, Fresh(max, first), calls, Call.TryConsume(now));
    SentWithinBound(max, first, calls, now, i);
  }

  lemma SentWithinBound(max: nat, first: real, calls: seq<Call>, now: real, i: nat)
    requires Forward(Fresh(max, first), calls + [Call.TryConsume(now)]) && i <= |calls|
    ensures Successes(max, Fresh(max, first), calls + [Call.TryConsume(now)])
            <= Successes(max, Fresh(max, first), calls[..i]) + max + Earned(max, now - TimeOf(calls, i, now))
  {
    var past, rest := calls[..i], calls[i..] + [Call.TryConsume(now)];
    ForwardMeans(Fresh(max, first), calls, Call.TryConsume(now), i);
    StretchIsBounded(max, Fresh(max, first), past, rest, TimeOf(calls, i, now), now);
    assert past + rest == calls + [Call.TryConsume(now)];
    BothAreBounded(max, Fresh(max, first), past, rest, max + Earned(max, now - TimeOf(calls, i, now)));
  }

  lemma StretchIsBounded(max: nat, b: Bucket, past: seq<Call>, rest: seq<Call>, from: real, latest: real)
    requires InRange(max, b) && rest != [] && rest[0].now == from && b.lastRefill <= from && NoneAfter(past, from)
    requires NoneAfter(rest, latest) && forall j, k | 0 <= j < k < |rest| :: rest[j].now <= rest[k].now
    ensures Successes(max, State(max, b, past), rest) <= max + Earned(max, latest - from)
  {
    StateIsPast(max, b, past, from);
    StretchFrom(max, State(max, b, past), rest, from, latest);
  }

  lemma StretchFrom(max: nat, s: Bucket, rest: seq<Call>, from: real, latest: real)
    requires InRange(max, s) && rest != [] && rest[0].now == from && s.lastRefill <= from
    requires NoneAfter(rest, latest) && forall j, k | 0 <= j < k < |rest| :: rest[j].now <= rest[k].now
    ensures Successes(max, s, rest) <= max + Earned(max, latest - from)
  {
    assert forall k | 0 <= k < |rest| :: from <= rest[k].now;
    SendsInAnyStretch(max, s, rest, latest);
  }

  lemma BothAreBounded(max: nat, b: Bucket, past: seq<Call>, rest: seq<Call>, bound: int)
    requires Successes(max, State(max, b, past), rest) <= bound
    ensures Successes(max, b, past + rest) <= Successes(max, b, past) + bound
  {
    StateOfBoth(max, b, past, rest);
  }

  /**
   * Under a clock that goes forward a send is let through exactly when, counted back to any call, fewer
   * were sent than a full bucket and the tokens of the time since.
   */
  lemma AllowedExactly(max: nat, first: real, calls: seq<Call>, now: real)
    requires Forward(Fresh(max, first), calls + [Call.TryConsume(now)])
    ensures Allowed(max, State(max, Fresh(max, first), calls), Call.TryConsume(now)) <==>
              forall i: nat | i <= |calls| ::
                SentSince(max, first, calls, i) < max + Earned(max, now - TimeOf(calls, i, now))
  {
    if Allowed(max, State(max, Fresh(max, first), calls), Call.TryConsume(now)) {
      forall i: nat | i <= |calls|
        ensures SentSince(max, first, calls, i) < max + Earned(max, now - TimeOf(calls, i, now))
      {
        AllowedWithinBound(max, first, calls, now, i);
      }
    } else {
      var i := RefusedWhenSpent(max, first, calls, now);
    }
  }

  /** So a send is let through once a token's time has passed since the last call, whatever came before. */
  lemma AllowedAfterAWait(max: nat, first: real, calls: seq<Call>, now: real)
    requires max > 0 && calls != [] && Forward(Fresh(max, first), calls + [Call.TryConsume(now)])
    requires now >= calls[|calls| - 1].now + 60000.0 / max as real
    ensures Allowed(max, State(max, Fresh(max, first), calls), Call.TryConsume(now))
  {
    ForwardMeans(Fresh(max, first), calls, Call.TryConsume(now), 0);
    var s := State(max, Fresh(max, first), calls);
    StateIsPast(max, Fresh(max, first), calls, calls[|calls| - 1].now);
    AllowedLongAfter(max, s, calls[|calls| - 1].now, now);
  }

  lemma AllowedLongAfter(max: nat, s: Bucket, last: real, now: real)
    requires max > 0 && InRange(max, s) && s.lastRefill <= last && now >= last + 60000.0 / max as real
    ensures Allowed(max, s, Call.TryConsume(now))
  {
    OneTokenEarned(max, now - s.lastRefill);
    EarnedIsCredited(max, s, now);
  }

  lemma OneTokenEarned(max: nat, elapsed: real)
    requires max > 0 && elapsed >= 60000.0 / max as real
    ensures Earned(max, elapsed) >= 1
  {
    EarnedGrows(max, 60000.0 / max as real, elapsed);
    CostOfTokens(max, 1);
  }

  lemma EarnedIsCredited(max: nat, b: Bucket, now: real)
    requires max > 0 && b.tokens >= 0 && Earned(max, now - b.lastRefill) >= 1
    ensures Allowed(max, b, Call.TryConsume(now))
  {
  }

  lemma StaysRefilled(max: nat, b: Bucket, tokens: int, now: real)
    requires Refill(max, b, now) == b && 0 <= tokens <= b.tokens <= max
    ensures Refill(max, b.(tokens := tokens), now) == b.(tokens := tokens)
  {
    if b.lastRefill == now {
      RefillNow(max, tokens, now);
    }
  }

  /** The number of tokens told is the number of sends that would be let through now. */
  lemma {:induction false} BurstTakes(max: nat, b: Bucket, n: nat, now: real)
    requires InRange(max, b) && Refill(max, b, now) == b
    ensures var taken := if n <= b.tokens then n else b.tokens;
            Successes(max, b, Burst(n, now)) == taken && State(max, b, Burst(n, now)) == b.(tokens := b.tokens - taken)
  {
    if n > 0 {
      BurstTakes(max, b, n - 1, now);
      assert Burst(n, now)[..n - 1] == Burst(n - 1, now);
      StaysRefilled(max, b, State(max, b, Burst(n - 1, now)).tokens, now);
    }
  }

  lemma RemainingAreSends(max: nat, b: Bucket, n: nat, now: real)
    requires InRange(max, b)
    ensures var tokens := Refill(max, b, now).tokens;
            Successes(max, b, Burst(n, now)) == if n <= tokens then n else tokens
  {
    StaysInRange(max, b, []);
    RefillIsPaid(max, b, now);
    RefillTwice(max, b, now, now);
    BurstTakes(max, Refill(max, b, now), n, now);
    if n > 0 {
      RefillFirst(max, b, Burst(n, now));
    }
  }

  // ------------------------------------------------------------------ the bound is reached

  /** n sends at one moment. */
  function Burst(n: nat, now: real): seq<Call> {
    seq(n, _ => Call.TryConsume(now))
  }

  lemma StateOfBoth(max: nat, b: Bucket, first: seq<Call>, second: seq<Call>)
    ensures State(max, b, first + second) == State(max, State(max, b, first), second)
    ensures Successes(max, b, first + second) == Successes(max, b, first) + Successes(max, State(max, b, first), second)
    decreases |second|
  {
    if second == [] {
      assert first + second == first;
    } else {
      StateOfBoth(max, b, first, second[..|second| - 1]);
      assert (first + second)[..|first + second| - 1] == first + second[..|second| - 1];
    }
  }

  lemma RefillNow(max: nat, tokens: int, now: real)
    requires 0 <= tokens <= max
    ensures Refill(max, Bucket(tokens, now), now) == Bucket(tokens, now)
  {
    assert Earned(max, now - now) == 0;
  }

  lemma {:induction false} BurstEmpties(max: nat, tokens: nat, n: nat, now: real)
    requires n <= tokens <= max
    ensures Successes(max, Bucket(tokens, now), Burst(n, now)) == n
    ensures State(max, Bucket(tokens, now), Burst(n, now)) == Bucket(tokens - n, now)
  {
    if n > 0 {
      BurstEmpties(max, tokens, n - 1, now);
      assert Burst(n, now)[..n - 1] == Burst(n - 1, now);
      RefillNow(max, tokens - (n - 1), now);
    }
  }

  lemma WindowRefills(max: nat, first: real)
    requires max > 0
    ensures Earned(max, first + WINDOW_MS - first) == max
    ensures Refill(max, Bucket(0, first), first + WINDOW_MS) == Bucket(max, first + WINDOW_MS)
  {
  }

  /** Twice the rate inside one window: a full bucket at its start, another at its end. */
  lemma TwiceTheRateHappens(max: nat, first: real)
    requires max > 0
    ensures Successes(max, Fresh(max, first), Burst(max, first) + Burst(max, first + WINDOW_MS)) == 2 * max
    ensures max + Earned(max, first + WINDOW_MS - first) == 2 * max
  {
    var b, empty, later := Fresh(max, first), Bucket(0, first), Burst(max, first + WINDOW_MS);
    BurstEmpties(max, max, max, first);
    WindowRefills(max, first);
    RefillFirst(max, empty, later);
    BurstEmpties(max, max, max, first + WINDOW_MS);
    StateOfBoth(max, b, Burst(max, first), later);
  }
}
