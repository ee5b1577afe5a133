/**
 * The bounded table of HTTP sessions: idle ones expire, and idle ones over the cap are closed least
 * recently used first. The table keeps its entries in the order they were set.
 */
module HttpSessions {
  import opened Sequences
  import opened Wrappers

  datatype Session = Session(id: string, transport: nat, lastUsed: int, active: nat)

  function Transports(s: seq<Session>): seq<nat> {
    if s == [] then [] else Transports(s[..|s| - 1]) + [s[|s| - 1].transport]
  }

  /** The log of closes, with one more. */
  function Log(before: seq<nat>, gone: seq<Session>): seq<nat> {
    before + Transports(gone)
  }

  lemma LogOne(before: seq<nat>, gone: seq<Session>, x: Session)
    ensures Log(before, gone) + [x.transport] == Log(before, gone + [x])
    ensures Log(before, []) == before
  {
    assert (gone + [x])[..|gone|] == gone;
  }

  lemma {:induction false} NoneOfThem(s: seq<Session>, transport: nat)
    requires forall x | x in s :: x.transport != transport
    ensures transport !in Transports(s)
  {
    if s != [] {
      NoneOfThem(s[..|s| - 1], transport);
    }
  }

  function RemoveAt(s: seq<Session>, i: nat): seq<Session>
    requires i < |s|
  {
    s[..i] + s[i + 1..]
  }

  /** One entry an id, one a transport, no closed transport in the table and none closed twice. */
  ghost predicate Tidy(sessions: seq<Session>, closed: seq<nat>) {
    && (forall i, j | 0 <= i < j < |sessions| ::
        sessions[i].id != sessions[j].id && sessions[i].transport != sessions[j].transport)
    && (forall i | 0 <= i < |sessions| :: sessions[i].transport !in closed)
    && (forall i, j | 0 <= i < j < |closed| :: closed[i] != closed[j])
  }

  // ------------------------------------------------------------------ expiry and eviction on values

  predicate Expired(s: Session, now: int, ttl: int) {
    s.active == 0 && now - s.lastUsed > ttl
  }

  /** The sessions that stay and those that expire, each in table order. */
  function Expiry(s: seq<Session>, now: int, ttl: int): (seq<Session>, seq<Session>) {
    if s == [] then ([], [])
    else
      var (live, gone) := Expiry(s[..|s| - 1], now, ttl);
      var last := s[|s| - 1];
      if Expired(last, now, ttl) then (live, gone + [last]) else (live + [last], gone)
  }

  predicate Evictable(s: Session, keep: Option<string>) {
    s.active == 0 && keep != Some(s.id)
  }

  /** The first of the least recently used sessions that may go. */
  predicate IsOldestIdle(s: seq<Session>, keep: Option<string>, i: nat) {
    && i < |s| && Evictable(s[i], keep)
    && (forall j | 0 <= j < |s| && Evictable(s[j], keep) :: s[i].lastUsed <= s[j].lastUsed)
    && (forall j | 0 <= j < i && Evictable(s[j], keep) :: s[i].lastUsed < s[j].lastUsed)
  }

  predicate NoneEvictable(s: seq<Session>, keep: Option<string>) {
    forall i | 0 <= i < |s| :: !Evictable(s[i], keep)
  }

  function OldestIdle(s: seq<Session>, keep: Option<string>): (oldest: Option<nat>)
    ensures oldest.Some? ==> IsOldestIdle(s, keep, oldest.value)
    ensures oldest.None? ==> NoneEvictable(s, keep)
  {
    if s == [] then None
    else
      var front, last := OldestIdle(s[..|s| - 1], keep), |s| - 1;
      if Evictable(s[last], keep) && (front.None? || s[last].lastUsed < s[front.value].lastUsed) then Some(last)
      else front
  }

  /** What the cap leaves, and what it closes, in that order. */
  function Capped(s: seq<Session>, max: nat, keep: Option<string>): (seq<Session>, seq<Session>)
    decreases |s|
  {
    var oldest := OldestIdle(s, keep);
    if |s| <= max || oldest.None? then (s, [])
    else
      var (left, gone) := Capped(RemoveAt(s, oldest.value), max, keep);
      (left, [s[oldest.value]] + gone)
  }

  /** Expiry, then the cap: what stays, and what is closed in order. */
  function Evicted(s: seq<Session>, now: int, ttl: int, max: nat, keep: Option<string>): (seq<Session>, seq<Session>) {
    var (live, expired) := Expiry(s, now, ttl);
    var (left, gone) := Capped(live, max, keep);
    (left, expired + gone)
  }

  function IndexOf(s: seq<Session>, id: string): (at: Option<nat>)
    ensures at.Some? ==> at.value < |s| && s[at.value].id == id
    ensures at.None? ==> forall k | 0 <= k < |s| :: s[k].id != id
  {
    if s == [] then None
    else
      var front := IndexOf(s[..|s| - 1], id);
      if front.Some? then front else if s[|s| - 1].id == id then Some(|s| - 1) else None
  }

  /** An entry set again keeps its place. */
  function Put(s: seq<Session>, session: Session): (r: seq<Session>)
    ensures session in r && (forall x | x in r :: x in s || x == session)
    ensures |r| == |s| || |r| == |s| + 1
    ensures forall k | 0 <= k < |s| :: k < |r| && (s[k].id != session.id ==> r[k] == s[k])
  {
    var at := IndexOf(s, session.id);
    if at.Some? then
      assert s[at.value := session][at.value] == session;
      s[at.value := session]
    else s + [session]
  }

  // ------------------------------------------------------------------ what eviction means

  predicate LeastRecentFirst(gone: seq<Session>) {
    forall i, j | 0 <= i < j < |gone| :: gone[i].lastUsed <= gone[j].lastUsed
  }

  lemma RemovedIsOneLess(s: seq<Session>, i: nat)
    requires i < |s|
    ensures multiset(RemoveAt(s, i)) + multiset{s[i]} == multiset(s)
    ensures forall x :: x in s <==> x in RemoveAt(s, i) || x == s[i]
  {
    assert s == s[..i] + [s[i]] + s[i + 1..];
  }

  /** Nothing is lost and nothing made up. */
  lemma {:induction false} CapSplits(s: seq<Session>, max: nat, keep: Option<string>)
    ensures multiset(Capped(s, max, keep).0) + multiset(Capped(s, max, keep).1) == multiset(s)
    ensures forall x :: x in s <==> x in Capped(s, max, keep).0 || x in Capped(s, max, keep).1
    decreases |s|
  {
    var oldest := OldestIdle(s, keep);
    if |s| > max && oldest.Some? {
      RemovedIsOneLess(s, oldest.value);
      CapSplits(RemoveAt(s, oldest.value), max, keep);
    }
  }

  /**
   * The cap closes idle sessions only, none it does not have to, and stops at the cap or when no idle
   * session is left.
   */
  lemma {:induction false} CapClosesOnlyIdle(s: seq<Session>, max: nat, keep: Option<string>)
    ensures var (left, gone) := Capped(s, max, keep);
            && (forall x | x in gone :: x.active == 0 && keep != Some(x.id))
            && (|left| <= max || forall x | x in left :: x.active > 0 || keep == Some(x.id))
            && (gone != [] ==> |left| >= max)
    decreases |s|
  {
    var oldest := OldestIdle(s, keep);
    if |s| > max && oldest.Some? {
      CapClosesOnlyIdle(RemoveAt(s, oldest.value), max, keep);
    }
  }

  /** Least recently used first, and each no more recent than any idle session left. */
  lemma {:induction false} CapClosesTheOldest(s: seq<Session>, max: nat, keep: Option<string>)
    ensures var (left, gone) := Capped(s, max, keep);
            && LeastRecentFirst(gone)
            && forall x, y | x in gone && y in left && y.active == 0 && keep != Some(y.id) :: x.lastUsed <= y.lastUsed
    decreases |s|
  {
    var oldest := OldestIdle(s, keep);
    if |s| > max && oldest.Some? {
      var first, rest := s[oldest.value], RemoveAt(s, oldest.value);
      RemovedIsOneLess(s, oldest.value);
      CapSplits(rest, max, keep);
      CapClosesOnlyIdle(rest, max, keep);
      CapClosesTheOldest(rest, max, keep);
      forall x | x in rest && Evictable(x, keep) ensures first.lastUsed <= x.lastUsed {
        assert x in s;
      }
      PutFirst(first, Capped(rest, max, keep).1);
    }
  }

  lemma PutFirst(first: Session, gone: seq<Session>)
    requires LeastRecentFirst(gone) && forall x | x in gone :: first.lastUsed <= x.lastUsed
    ensures LeastRecentFirst([first] + gone)
  {
  }

  /** Expiry closes exactly the idle sessions unused for longer than the limit, and keeps the others in order. */
  lemma {:induction false} ExpiryClosesTheExpired(s: seq<Session>, now: int, ttl: int)
    ensures var (live, gone) := Expiry(s, now, ttl);
            && (forall x :: x in s <==> x in live || x in gone) && |live| + |gone| == |s|
            && (forall x | x in live :: x.active > 0 || now - x.lastUsed <= ttl)
            && (forall x | x in gone :: x.active == 0 && now - x.lastUsed > ttl)
  {
    if s != [] {
      ExpiryClosesTheExpired(s[..|s| - 1], now, ttl);
      assert s == s[..|s| - 1] + [s[|s| - 1]];
    }
  }

  /** Nothing expires that is in use or was used in time, and what stays is in its order. */
  lemma {:induction false} ExpiryKeepsInOrder(s: seq<Session>, now: int, ttl: int)
    requires forall x | x in s :: x.active > 0 || now - x.lastUsed <= ttl
    ensures Expiry(s, now, ttl) == (s, [])
  {
    if s != [] {
      ExpiryKeepsInOrder(s[..|s| - 1], now, ttl);
      assert s == s[..|s| - 1] + [s[|s| - 1]] && s[|s| - 1] in s;
    }
  }

  /**
   * Who is there after an eviction: only who was there before and is in use or was used in time; who left
   * was idle, and had expired or had to make room: then everyone idle that is left was used no earlier.
   */
  lemma EvictionInPlainTerms(s: seq<Session>, now: int, ttl: int, max: nat, keep: Option<string>)
    ensures var (left, gone) := Evicted(s, now, ttl, max, keep);
            && (forall x :: x in s <==> x in left || x in gone) && |left| + |gone| == |s|
            && (forall x | x in left :: x.active > 0 || now - x.lastUsed <= ttl)
            && (|left| <= max || forall x | x in left :: x.active > 0 || keep == Some(x.id))
            && (forall x | x in gone :: x.active == 0)
            && (forall x | x in gone && now - x.lastUsed <= ttl ::
                  && keep != Some(x.id) && |left| >= max
                  && forall y | y in left && y.active == 0 && keep != Some(y.id) :: x.lastUsed <= y.lastUsed)
  {
    var live := Expiry(s, now, ttl).0;
    ExpiryClosesTheExpired(s, now, ttl);
    CapSplits(live, max, keep);
    CapClosesOnlyIdle(live, max, keep);
    CapClosesTheOldest(live, max, keep);
    CapCounts(live, max, keep);
  }

  lemma {:induction false} CapCounts(s: seq<Session>, max: nat, keep: Option<string>)
    ensures |Capped(s, max, keep).0| + |Capped(s, max, keep).1| == |s|
    decreases |s|
  {
    var oldest := OldestIdle(s, keep);
    if |s| > max && oldest.Some? {
      CapCounts(RemoveAt(s, oldest.value), max, keep);
    }
  }

  // ------------------------------------------------------------------ the store

  /** The sweep has looked at the first n sessions. */
  ghost predicate Swept(was: seq<Session>, n: nat, now: int, ttl: int, sessions: seq<Session>, live: seq<Session>,
                        gone: seq<Session>) {
    n <= |was| && Expiry(was[..n], now, ttl) == (live, gone) && sessions == live + was[n..]
  }

  lemma SweepOne(was: seq<Session>, n: nat, now: int, ttl: int, sessions: seq<Session>, live: seq<Session>,
                 gone: seq<Session>)
    requires Swept(was, n, now, ttl, sessions, live, gone) && n < |was|
    ensures |live| < |sessions| && sessions[|live|] == was[n]
    ensures if Expired(was[n], now, ttl)
            then Swept(was, n + 1, now, ttl, RemoveAt(sessions, |live|), live, gone + [was[n]])
            else Swept(was, n + 1, now, ttl, sessions, live + [was[n]], gone)
  {
    assert was[..n + 1][..n] == was[..n] && was[n..] == [was[n]] + was[n + 1..];
    if Expired(was[n], now, ttl) {
      assert RemoveAt(sessions, |live|) == live + was[n + 1..];
    }
  }

  lemma SweepStart(was: seq<Session>, now: int, ttl: int)
    ensures Swept(was, 0, now, ttl, was, [], [])
  {
    assert was[..0] == [] && [] + was[0..] == was;
  }

  lemma SweepEnd(was: seq<Session>, now: int, ttl: int, sessions: seq<Session>, live: seq<Session>, gone: seq<Session>)
    requires Swept(was, |was|, now, ttl, sessions, live, gone)
    ensures Expiry(was, now, ttl) == (sessions, gone)
  {
    assert was[..|was|] == was && live + was[|was|..] == live;
  }

  /** The cap has closed `gone` so far. */
  ghost predicate Evicting(live: seq<Session>, max: nat, keep: Option<string>, sessions: seq<Session>,
                           gone: seq<Session>) {
    Capped(live, max, keep).0 == Capped(sessions, max, keep).0
      && Capped(live, max, keep).1 == gone + Capped(sessions, max, keep).1
  }

  lemma CappedStep(s: seq<Session>, max: nat, keep: Option<string>, i: nat)
    requires |s| > max && OldestIdle(s, keep) == Some(i)
    ensures i < |s| && Capped(s, max, keep).0 == Capped(RemoveAt(s, i), max, keep).0
    ensures Capped(s, max, keep).1 == [s[i]] + Capped(RemoveAt(s, i), max, keep).1
  {
  }

  lemma EvictOne(live: seq<Session>, max: nat, keep: Option<string>, sessions: seq<Session>, gone: seq<Session>, i: nat)
    requires Evicting(live, max, keep, sessions, gone) && |sessions| > max && OldestIdle(sessions, keep) == Some(i)
    ensures i < |sessions| && Evicting(live, max, keep, RemoveAt(sessions, i), gone + [sessions[i]])
  {
    CappedStep(sessions, max, keep, i);
    Regroup(gone, [sessions[i]], Capped(RemoveAt(sessions, i), max, keep).1);
  }

  class HttpSessionStore {
    const maxSessions: nat
    const ttlMs: int
    var sessions: seq<Session>
    /** The transports closed, oldest first. */
    var closed: seq<nat>

    ghost predicate Valid()
      reads this
    {
      Tidy(sessions, closed)
    }

    constructor (max: nat, ttl: int)
      ensures Valid() && sessions == [] && closed == [] && maxSessions == max && ttlMs == ttl
    {
      maxSessions, ttlMs, sessions, closed := max, ttl, [], [];
    }

    /** Where a session is in the table. */
    method Find(id: string) returns (at: Option<nat>)
      requires Valid()
      ensures at == IndexOf(sessions, id)
    {
      for i := 0 to |sessions|
        invariant forall k | 0 <= k < i :: sessions[k].id != id
      {
        if sessions[i].id == id {
          return Some(i);
        }
      }
      at := None;
    }

    /** A session with a request in flight is never closed. */
    method CloseAndDelete(i: nat)
      requires Valid() && i < |sessions| && sessions[i].active == 0
      modifies this`sessions, this`closed
      ensures Valid() && sessions == RemoveAt(old(sessions), i) && closed == old(closed) + [old(sessions[i].transport)]
    {
      closed := closed + [sessions[i].transport];
      sessions := RemoveAt(sessions, i);
    }

    /** One entry of the snapshot, standing at i by now. */
    method CloseIfExpired(i: nat, now: int) returns (next: nat)
      requires Valid() && i < |sessions|
      modifies this`sessions, this`closed
      ensures Valid()
      ensures Expired(old(sessions[i]), now, ttlMs) ==>
                sessions == RemoveAt(old(sessions), i) && closed == old(closed) + [old(sessions[i].transport)]
                && next == i
      ensures !Expired(old(sessions[i]), now, ttlMs) ==>
                sessions == old(sessions) && closed == old(closed) && next == i + 1
    {
      if Expired(sessions[i], now, ttlMs) {
        CloseAndDelete(i);
        return i;
      }
      next := i + 1;
    }

    method CloseExpired(now: int)
      requires Valid()
      modifies this`sessions, this`closed
      ensures Valid() && sessions == Expiry(old(sessions), now, ttlMs).0
      ensures closed == Log(old(closed), Expiry(old(sessions), now, ttlMs).1)
    {
      ghost var before, was, live, gone: seq<Session> := closed, sessions, [], [];
      var i, entries := 0, |sessions|;
      SweepStart(was, now, ttlMs);
      assert closed == Log(before, []);
      for n := 0 to entries
        invariant Valid() && Swept(was, n, now, ttlMs, sessions, live, gone) && i == |live|
        invariant closed == Log(before, gone)
      {
        SweepOne(was, n, now, ttlMs, sessions, live, gone);
        LogOne(before, gone, was[n]);
        i := CloseIfExpired(i, now);
        if Expired(was[n], now, ttlMs) {
          gone := gone + [was[n]];
        } else {
          live := live + [was[n]];
        }
      }
      SweepEnd(was, now, ttlMs, sessions, live, gone);
    }

    method FindOldestIdle(keep: Option<string>) returns (oldest: Option<nat>)
      ensures oldest == OldestIdle(sessions, keep)
    {
      oldest := None;
      for i := 0 to |sessions|
        invariant oldest == OldestIdle(sessions[..i], keep)
      {
        assert sessions[..i + 1][..i] == sessions[..i];
        if Evictable(sessions[i], keep) && (oldest.None? || sessions[i].lastUsed < sessions[oldest.value].lastUsed) {
          oldest := Some(i);
        }
      }
      assert sessions[..|sessions|] == sessions;
    }

    method Evict(keep: Option<string>, now: int)
      requires Valid()
      modifies this`sessions, this`closed
      ensures Valid() && sessions == Evicted(old(sessions), now, ttlMs, maxSessions, keep).0
      ensures closed == Log(old(closed), Evicted(old(sessions), now, ttlMs, maxSessions, keep).1)
      ensures |sessions| <= maxSessions || NoneEvictable(sessions, keep)
      // an idle session past its time is gone, one in use or in its time is only made room with
      ensures forall x | x in sessions :: x in old(sessions) && (x.active > 0 || now - x.lastUsed <= ttlMs)
      ensures forall x | x in old(sessions) && x !in sessions :: x.active == 0
    {
      EvictionInPlainTerms(sessions, now, ttlMs, maxSessions, keep);
      ghost var was, before := sessions, closed;
      CloseExpired(now);
      ghost var live, expired, gone: seq<Session> := sessions, closed, [];
      assert [] + Capped(live, maxSessions, keep).1 == Capped(live, maxSessions, keep).1;
      while |sessions| > maxSessions
        invariant Valid() && closed == Log(expired, gone) && Evicting(live, maxSessions, keep, sessions, gone)
        decreases |sessions|
      {
        var oldest := FindOldestIdle(keep);
        if oldest.None? {
          break;
        }
        LogOne(expired, gone, sessions[oldest.value]);
        EvictOne(live, maxSessions, keep, sessions, gone, oldest.value);
        gone := gone + [sessions[oldest.value]];
        CloseAndDelete(oldest.value);
      }
      assert Capped(sessions, maxSessions, keep) == (sessions, []) && gone + [] == gone;
      CapClosesOnlyIdle(live, maxSessions, keep);
      LogBoth(before, Expiry(was, now, ttlMs).1, gone);
    }

    /** The clock is read for each eviction and for the session's own time. */
    method Set(id: string, transport: nat, now0: int, now1: int, now2: int)
      requires Valid() && transport !in closed && forall x | x in sessions :: x.transport != transport
      modifies this`sessions, this`closed
      ensures Valid() && (|sessions| <= maxSessions || NoneEvictable(sessions, Some(id)))
      ensures var first := Evicted(old(sessions), now0, ttlMs, maxSessions, None);
              var second := Evicted(Put(first.0, Session(id, transport, now1, 0)), now2, ttlMs, maxSessions, Some(id));
              sessions == second.0 && closed == Log(Log(old(closed), first.1), second.1)
      ensures now2 - now1 <= ttlMs ==> Session(id, transport, now1, 0) in sessions
    {
      ghost var was := sessions;
      Evict(None, now0);
      StillFresh(was, maxSessions, ttlMs, now0, None, transport);
      var session := Session(id, transport, now1, 0);
      SetEntry(session);
      ghost var before := sessions;
      Evict(Some(id), now2);
      if now2 - now1 <= ttlMs {
        KeptStays(before, maxSessions, ttlMs, now2, session);
      }
    }

    method SetEntry(session: Session)
      requires Valid() && session.transport !in closed && forall x | x in sessions :: x.transport != session.transport
      modifies this`sessions
      ensures Valid() && sessions == Put(old(sessions), session)
    {
      var at := Find(session.id);
      sessions := if at.Some? then sessions[at.value := session] else sessions + [session];
    }

    method BeginRequest(id: string, now: int)
      requires Valid()
      modifies this`sessions
      ensures Valid() && |sessions| == |old(sessions)|
      ensures forall k | 0 <= k < |sessions| :: sessions[k] ==
                var s := old(sessions)[k]; if s.id == id then s.(active := s.active + 1, lastUsed := now) else s
    {
      var at := Find(id);
      if at.Some? {
        var s := sessions[at.value];
        sessions := sessions[at.value := s.(active := s.active + 1, lastUsed := now)];
      }
    }

    method EndRequest(id: string)
      requires Valid()
      modifies this`sessions
      ensures Valid() && |sessions| == |old(sessions)|
      ensures forall k | 0 <= k < |sessions| :: sessions[k] ==
                var s := old(sessions)[k]; if s.id == id && s.active > 0 then s.(active := s.active - 1) else s
    {
      var at := Find(id);
      if at.Some? && sessions[at.value].active > 0 {
        var s := sessions[at.value];
        sessions := sessions[at.value := s.(active := s.active - 1)];
      }
    }

    /** Takes a session out without closing it. */
    method Delete(id: string)
      requires Valid()
      modifies this`sessions
      ensures Valid() && (forall x :: x in sessions <==> x in old(sessions) && x.id != id)
    {
      var at := Find(id);
      if at.Some? {
        RemovedIsOneLess(sessions, at.value);
        sessions := RemoveAt(sessions, at.value);
      }
    }
  }

  lemma {:induction false} LogBoth(before: seq<nat>, first: seq<Session>, second: seq<Session>)
    ensures Log(Log(before, first), second) == Log(before, first + second)
    decreases |second|
  {
    if second == [] {
      assert first + second == first;
    } else {
      var front, last := second[..|second| - 1], second[|second| - 1];
      LogBoth(before, first, front);
      LogOne(Log(before, first), front, last);
      LogOne(before, first + front, last);
      assert second == front + [last] && first + second == first + front + [last];
    }
  }

  lemma StillFresh(was: seq<Session>, max: nat, ttl: int, now: int, keep: Option<string>, transport: nat)
    requires forall x | x in was :: x.transport != transport
    ensures var (left, gone) := Evicted(was, now, ttl, max, keep);
            && (forall x | x in left :: x.transport != transport)
            && forall before | transport !in before :: transport !in Log(before, gone)
  {
    var (live, expired) := Expiry(was, now, ttl);
    ExpiryClosesTheExpired(was, now, ttl);
    CapSplits(live, max, keep);
    var gone := Evicted(was, now, ttl, max, keep).1;
    NoneOfThem(gone, transport);
  }

  lemma KeptStays(before: seq<Session>, max: nat, ttl: int, now: int, session: Session)
    requires session in before && now - session.lastUsed <= ttl
    ensures session in Evicted(before, now, ttl, max, Some(session.id)).0
  {
    var live := Expiry(before, now, ttl).0;
    ExpiryClosesTheExpired(before, now, ttl);
    CapSplits(live, max, Some(session.id));
    CapClosesOnlyIdle(live, max, Some(session.id));
  }
}
