/**
 * New mail detection of the IDLE watcher, for one account and folder: the UIDs told across arrivals,
 * notices, failed fetches, disconnects and reconnects. A connection that closes fails its fetch.
 */
module Watcher {
  import opened Sequences
  import opened Wrappers

  datatype Mailbox = Mailbox(present: set<nat>, uidNext: nat, uidValidity: nat)

  predicate WellFormed(m: Mailbox) {
    m.uidNext > 0 && forall u | u in m.present :: 0 < u < m.uidNext
  }

  predicate IsNewest(m: Mailbox, u: nat) {
    u in m.present && forall v | v in m.present :: v <= u
  }

  /**
   * The messages `n:*` matches (section 6.4.8 of RFC 3501): those from n up, and the newest one even
   * when no UID reaches n.
   */
  predicate Matches(m: Mailbox, n: nat, u: nat) {
    u in m.present && (u >= n || IsNewest(m, u))
  }

  /** What the server may answer to a fetch of `n:*`, in whatever order it likes. */
  ghost predicate Answers(m: Mailbox, n: nat, rows: seq<nat>) {
    Distinct(rows) && forall u: nat :: u in rows <==> Matches(m, n, u)
  }

  /** Mail arrives under ascending UIDs and mail is expunged; while no session is open the server may also renumber. */
  ghost predicate Moves(m: Mailbox, m': Mailbox, open: bool) {
    && WellFormed(m')
    && if m'.uidValidity == m.uidValidity
       then m.uidNext <= m'.uidNext && forall u | u in m'.present && u < m.uidNext :: u in m.present
       else !open && m.uidValidity < m'.uidValidity
  }

  /** The range alone answers with a message below n exactly when every message is below n and there is one. */
  lemma RangeAloneMatchesTheNewest(m: Mailbox, n: nat)
    requires WellFormed(m)
    ensures (exists u: nat :: Matches(m, n, u) && u < n) <==> m.present != {} && forall u | u in m.present :: u < n
  {
    if m.present != {} && forall u | u in m.present :: u < n {
      var u := Newest(m.present);
      assert Matches(m, n, u);
    }
  }

  lemma {:induction false} Newest(s: set<nat>) returns (u: nat)
    requires s != {}
    ensures u in s && forall v | v in s :: v <= u
  {
    var x :| x in s;
    if s == {x} {
      u := x;
    } else {
      var y := Newest(s - {x});
      u := if x > y then x else y;
      assert forall v | v in s :: v == x || v in s - {x};
    }
  }

  /** The rows the loop keeps. */
  function Above(rows: seq<nat>, lastSeen: nat): seq<nat> {
    if rows == [] then []
    else Above(rows[..|rows| - 1], lastSeen) + (if rows[|rows| - 1] > lastSeen then [rows[|rows| - 1]] else [])
  }

  lemma {:induction false} AboveKeeps(rows: seq<nat>, lastSeen: nat)
    ensures forall u :: u in Above(rows, lastSeen) <==> u in rows && u > lastSeen
    ensures Distinct(rows) ==> Distinct(Above(rows, lastSeen))
  {
    if rows != [] {
      var front := rows[..|rows| - 1];
      AboveKeeps(front, lastSeen);
      assert rows == front + [rows[|rows| - 1]];
      if Distinct(rows) {
        assert rows[|rows| - 1] !in front;
      }
    }
  }

  /** The rows kept are in the order of the answer. */
  lemma {:induction false} AboveInOrder(rows: seq<nat>, lastSeen: nat) returns (at: seq<nat>)
    ensures |at| == |Above(rows, lastSeen)|
    ensures forall i | 0 <= i < |at| :: at[i] < |rows| && rows[at[i]] == Above(rows, lastSeen)[i]
    ensures forall i, j | 0 <= i < j < |at| :: at[i] < at[j]
  {
    at := [];
    if rows != [] {
      at := AboveInOrder(rows[..|rows| - 1], lastSeen);
      if rows[|rows| - 1] > lastSeen {
        at := at + [|rows| - 1];
      }
    }
  }

  lemma JoinDistinct(told: seq<nat>, more: seq<nat>, last: nat)
    requires Distinct(told) && Distinct(more)
    requires (forall u | u in told :: u <= last) && (forall u | u in more :: u > last)
    ensures Distinct(told + more)
  {
    forall i, j | 0 <= i < |told| && 0 <= j < |more| ensures told[i] != more[j] {
      assert told[i] in told && more[j] in more;
    }
  }

  /** The messages above the last seen UID, each once. */
  ghost predicate IsNewMail(m: Mailbox, lastSeen: nat, batch: seq<nat>) {
    Distinct(batch) && forall u: nat :: u in batch <==> u in m.present && u > lastSeen
  }

  lemma AnswerHoldsNewMail(m: Mailbox, lastSeen: nat, rows: seq<nat>)
    requires Answers(m, lastSeen + 1, rows)
    ensures IsNewMail(m, lastSeen, Above(rows, lastSeen))
  {
    AboveKeeps(rows, lastSeen);
  }

  function WithBatch(events: seq<seq<nat>>, batch: seq<nat>): seq<seq<nat>> {
    if batch == [] then events else events + [batch]
  }

  /** The batches from the given one on hold these messages, in order. */
  predicate TellsSince(events: seq<seq<nat>>, since: nat, told: seq<nat>) {
    since <= |events| && Flatten(events[since..]) == told
  }

  /** One batch more tells its messages after those of the batches before it. */
  lemma OneBatchMore(events: seq<seq<nat>>, since: nat, told: seq<nat>, batch: seq<nat>)
    requires TellsSince(events, since, told)
    ensures TellsSince(WithBatch(events, batch), since, told + batch)
  {
    if batch != [] {
      var more := (events + [batch])[since..];
      assert more[..|more| - 1] == events[since..];
    }
  }

  function Max(s: seq<nat>, least: nat): (r: nat)
    ensures r >= least && (forall u | u in s :: u <= r) && (r == least || r in s)
  {
    if s == [] then least
    else
      var front := Max(s[..|s| - 1], least);
      assert s == s[..|s| - 1] + [s[|s| - 1]];
      if s[|s| - 1] > front then s[|s| - 1] else front
  }

  /** One event more and its newest message, or neither. */
  lemma BatchMeans(events: seq<seq<nat>>, rows: seq<nat>, last: nat)
    ensures var batch := Above(rows, last);
            if batch == [] then WithBatch(events, batch) == events && Max(batch, last) == last
            else WithBatch(events, batch) == events + [batch]
                 && Max(batch, last) in batch && forall u | u in batch :: u <= Max(batch, last)
  {
    AboveKeeps(rows, last);
    if Above(rows, last) != [] {
      assert Above(rows, last)[0] in Above(rows, last);
    }
  }

  /** No message is told twice, none up to the last seen UID is missed. */
  ghost predicate ToldAll(m: Mailbox, base: nat, told: seq<nat>, last: nat) {
    && base <= last < m.uidNext
    && Distinct(told) && (forall u | u in told :: base < u <= last)
    && (forall u | u in m.present && base < u <= last :: u in told)
  }

  /** The answer holds every message above the last seen UID that was there when the server gave it. */
  ghost predicate HoldsAllAbove(m: Mailbox, last: nat, asked: nat, rows: seq<nat>) {
    && asked <= m.uidNext && last < asked
    && Distinct(rows) && (forall u | u in rows :: u < asked)
    && (forall u | u in m.present && last < u < asked :: u in rows)
  }

  /** Telling what an answer holds keeps all that, up to the answer. */
  lemma TellMore(m: Mailbox, base: nat, told: seq<nat>, last: nat, asked: nat, rows: seq<nat>)
    requires ToldAll(m, base, told, last) && HoldsAllAbove(m, last, asked, rows)
    ensures ToldAll(m, base, told + Above(rows, last), Max(Above(rows, last), last))
    ensures forall u | u in m.present && base < u < asked :: u in told + Above(rows, last)
  {
    AboveKeeps(rows, last);
    JoinDistinct(told, Above(rows, last), last);
  }

  // ------------------------------------------------------------------ the watcher

  /** A fetch under way: the server's answer, how far it has been read, and what was collected. */
  datatype Fetch = Fetch(rows: seq<nat>, next: nat, emails: seq<nat>, maxUid: nat)

  /** What was collected from an answer and how far it has been read. */
  ghost predicate Collected(f: Fetch, last: nat) {
    f.next <= |f.rows| && f.emails == Above(f.rows[..f.next], last) && f.maxUid == Max(f.emails, last)
  }

  lemma WhollyRead(m: Mailbox, base: nat, told: seq<nat>, last: nat, asked: nat, f: Fetch)
    requires ToldAll(m, base, told, last) && HoldsAllAbove(m, last, asked, f.rows)
    requires Collected(f, last) && f.next == |f.rows|
    ensures f.emails == Above(f.rows, last) && f.maxUid == Max(f.emails, last) >= last
    ensures ToldAll(m, base, told + f.emails, f.maxUid)
    ensures forall u | u in m.present && base < u < asked :: u in told + f.emails
  {
    assert f.rows[..f.next] == f.rows;
    TellMore(m, base, told, last, asked, f.rows);
  }

  class IdleState {
    var connected: bool
    var lastSeenUid: nat
    /** None until the first select succeeds. */
    var uidValidity: Option<nat>
    var fetch: Option<Fetch>
    /** The batches emitted, oldest first. */
    var events: seq<seq<nat>>

    /** Under the current UIDVALIDITY: the newest UID when it was first seen, and every UID told, in order. */
    ghost var base: nat
    ghost var told: seq<nat>
    /** How many batches had been emitted by then. */
    ghost var since: nat
    /** The next UID of the mailbox when the fetch was answered. */
    ghost var asked: nat

    ghost predicate Valid(m: Mailbox)
      reads this
    {
      && WellFormed(m)
      && (uidValidity.Some? ==> uidValidity.value <= m.uidValidity)
      && (connected ==> uidValidity == Some(m.uidValidity))
      && (uidValidity == Some(m.uidValidity) ==> Told(m))
      && (fetch.Some? ==> connected && Reading(fetch.value, m))
      && TellsSince(events, since, told)
    }

    ghost predicate Told(m: Mailbox)
      reads this
    {
      ToldAll(m, base, told, lastSeenUid)
    }

    ghost predicate Reading(f: Fetch, m: Mailbox)
      reads this
    {
      HoldsAllAbove(m, lastSeenUid, asked, f.rows) && Collected(f, lastSeenUid)
    }

    constructor (m: Mailbox)
      requires WellFormed(m)
      ensures Valid(m) && !connected && uidValidity.None? && events == []
    {
      connected, lastSeenUid, uidValidity, fetch, events, base, told, since := false, 0, None, None, [], 0, [], 0;
    }

    /** The batches since the last renumbering tell each UID once, none up to the last seen one missing. */
    lemma EventsTellOnce(m: Mailbox)
      requires Valid(m) && uidValidity == Some(m.uidValidity)
      ensures since <= |events| && Distinct(Flatten(events[since..]))
      ensures forall u | u in m.present && base < u <= lastSeenUid :: u in Flatten(events[since..])
      ensures forall u: nat | u in Flatten(events[since..]) :: base < u <= lastSeenUid
    {
      assert forall u: nat | u in Flatten(events[since..]) :: u in told;
    }

    /** Arrivals and expunges, at any moment, fetch under way or not, and a renumbering between sessions. */
    lemma MailboxMoves(m: Mailbox, m': Mailbox)
      requires Valid(m) && Moves(m, m', connected)
      ensures Valid(m')
    {
    }

    /** The folder is selected: carry on after the last UID told, unless the server renumbered. */
    method Select(m: Mailbox) returns (behind: bool)
      requires Valid(m) && !connected
      modifies this
      ensures Valid(m) && connected && uidValidity == Some(m.uidValidity) && fetch.None? && events == old(events)
      ensures old(uidValidity) == Some(m.uidValidity) ==>
                lastSeenUid == old(lastSeenUid) && base == old(base) && told == old(told) && since == old(since)
      ensures old(uidValidity) != Some(m.uidValidity) ==>
                lastSeenUid == base == m.uidNext - 1 && told == [] && since == |events|
      ensures behind <==> lastSeenUid < m.uidNext - 1
      ensures !behind ==> forall u | u in m.present && base < u :: u in told
    {
      var resumeAfter := if uidValidity == Some(m.uidValidity) then lastSeenUid else m.uidNext - 1;
      if uidValidity != Some(m.uidValidity) {
        base, told, since := m.uidNext - 1, [], |events|;
      }
      connected, fetch, lastSeenUid, uidValidity := true, None, resumeAfter, Some(m.uidValidity);
      behind := m.uidNext - 1 > resumeAfter;
    }

    /** The connection ends, and with it a fetch under way. */
    method Disconnect(m: Mailbox)
      requires Valid(m)
      modifies this`connected, this`fetch
      ensures Valid(m) && !connected && fetch.None?
    {
      connected, fetch := false, None;
    }

    /** handleNewEmails, holding the mailbox lock: no other fetch of this session is under way. */
    method StartFetch(m: Mailbox, rows: seq<nat>)
      requires Valid(m) && connected && fetch.None? && Answers(m, lastSeenUid + 1, rows)
      modifies this`fetch, this`asked
      ensures Valid(m) && fetch == Some(Fetch(rows, 0, [], lastSeenUid)) && asked == m.uidNext
    {
      fetch, asked := Some(Fetch(rows, 0, [], lastSeenUid)), m.uidNext;
      assert rows[..0] == [];
    }

    method ReadRow(m: Mailbox)
      requires Valid(m) && fetch.Some? && fetch.value.next < |fetch.value.rows|
      modifies this`fetch
      ensures Valid(m) && fetch.Some? && fetch.value.rows == old(fetch.value.rows)
              && fetch.value.next == old(fetch.value.next) + 1
    {
      var f := fetch.value;
      var uid := f.rows[f.next];
      assert f.rows[..f.next + 1][..f.next] == f.rows[..f.next];
      if uid > lastSeenUid {
        var emails := f.emails + [uid];
        assert emails[..|emails| - 1] == f.emails;
        fetch := Some(f.(next := f.next + 1, emails := emails, maxUid := if uid > f.maxUid then uid else f.maxUid));
      } else {
        fetch := Some(f.(next := f.next + 1));
      }
    }

    /** The whole answer was read: its new messages are told, once, and every message up to the answer is now told. */
    method FinishFetch(m: Mailbox)
      requires Valid(m) && fetch.Some? && fetch.value.next == |fetch.value.rows|
      modifies this`fetch, this`lastSeenUid, this`events, this`told
      ensures Valid(m) && connected && fetch.None? && old(lastSeenUid) <= lastSeenUid
      ensures told == old(told) + Above(old(fetch.value.rows), old(lastSeenUid))
      ensures events == WithBatch(old(events), Above(old(fetch.value.rows), old(lastSeenUid)))
      ensures lastSeenUid == Max(Above(old(fetch.value.rows), old(lastSeenUid)), old(lastSeenUid))
      ensures forall u | u in m.present && base < u < asked :: u in told
    {
      var f := fetch.value;
      ghost var more, after := told + f.emails, WithBatch(events, f.emails);
      WhollyRead(m, base, told, lastSeenUid, asked, f);
      OneBatchMore(events, since, told, f.emails);
      lastSeenUid, fetch, told := if f.maxUid > lastSeenUid then f.maxUid else lastSeenUid, None, more;
      if |f.emails| > 0 {
        events := events + [f.emails];
      }
      assert events == after && lastSeenUid == f.maxUid;
      assert Told(m) && TellsSince(events, since, told);
    }

    /** The fetch threw, wherever it was: nothing is told and nothing skipped. */
    method FailFetch(m: Mailbox)
      requires Valid(m) && fetch.Some?
      modifies this`fetch
      ensures Valid(m) && fetch.None?
    {
      fetch := None;
    }

    /** One notice handled while the mailbox holds still; the fetch may fail after any number of rows. */
    method HandleNewEmails(m: Mailbox, rows: seq<nat>, failsAfter: Option<nat>)
      returns (ok: bool, ghost batch: seq<nat>)
      requires Valid(m) && connected && fetch.None? && Answers(m, lastSeenUid + 1, rows)
      modifies this`fetch, this`asked, this`lastSeenUid, this`events, this`told
      ensures Valid(m) && connected && fetch.None?
      ensures !ok ==> lastSeenUid == old(lastSeenUid) && events == old(events) && told == old(told)
      ensures ok ==>
                IsNewMail(m, old(lastSeenUid), batch) && events == WithBatch(old(events), batch)
                && told == old(told) + batch
      ensures ok ==> forall u | u in m.present && base < u :: u in told
      // nothing new, no event; else one event, and its newest is the last seen
      ensures ok && batch == [] ==> events == old(events) && lastSeenUid == old(lastSeenUid)
      ensures ok && batch != [] ==>
                events == old(events) + [batch] && lastSeenUid in batch && forall u | u in batch :: u <= lastSeenUid
      ensures ok ==> batch == Above(rows, old(lastSeenUid))
    {
      StartFetch(m, rows);
      batch := [];
      ghost var last := lastSeenUid;
      while fetch.value.next < |rows|
        invariant Valid(m) && connected && fetch.Some? && fetch.value.rows == rows && asked == m.uidNext
        invariant lastSeenUid == last && events == old(events) && told == old(told)
        decreases |rows| - fetch.value.next
      {
        if failsAfter == Some(fetch.value.next) {
          FailFetch(m);
          return false, batch;
        }
        ReadRow(m);
      }
      FinishFetch(m);
      AnswerHoldsNewMail(m, last, rows);
      BatchMeans(old(events), rows, last);
      ok, batch := true, Above(rows, last);
    }
  }
}
