/**
 * findThreadUids: the messages around one Message-ID, found by searching ids and reading the ids the
 * found messages name, until nothing new turns up or `max` messages are known.
 */
module ThreadSearch {
  import opened Sequences
  import opened Wrappers

  const THREAD_HEADERS: seq<string> := ["Message-ID", "References", "In-Reply-To"]

  /**
   * What the server answers: the UIDs a header search finds, None when it is refused, and the ids the
   * thread headers of a message name.
   */
  datatype Server = Server(search: (string, string) -> Option<seq<nat>>, names: nat -> seq<string>)

  /** A set of ids and messages that following the thread from `start` never leaves. */
  ghost predicate Closed(server: Server, start: string, ids: iset<string>, uids: iset<nat>) {
    && start in ids
    && (forall id, uid: nat | id in ids && Answers(server, id, uid) :: uid in uids)
    && (forall uid: nat, id | uid in uids && id in server.names(uid) :: id in ids)
  }

  /** The message turns up when the id is looked for in one of the thread headers. */
  ghost predicate Answers(server: Server, id: string, uid: nat) {
    || AnswersIn(server, "Message-ID", id, uid)
    || AnswersIn(server, "References", id, uid)
    || AnswersIn(server, "In-Reply-To", id, uid)
  }

  predicate AnswersIn(server: Server, header: string, id: string, uid: nat) {
    server.search(header, id).Some? && uid in server.search(header, id).value
  }

  /** Every closed set holds these: each was reached from the start. */
  ghost predicate Reached(server: Server, start: string, ids: seq<string>, uids: seq<nat>) {
    forall closedIds, closedUids | Closed(server, start, closedIds, closedUids) ::
      (forall id | id in ids :: id in closedIds) && (forall uid | uid in uids :: uid in closedUids)
  }

  /** A JavaScript Set keeps its elements in the order they were first added. */
  function Add<T(==)>(s: seq<T>, x: T): seq<T> {
    if x in s then s else s + [x]
  }

  method AddAll<T(==)>(s: seq<T>, more: seq<T>) returns (r: seq<T>)
    requires Distinct(s)
    ensures Distinct(r) && s <= r
    ensures forall x :: x in r <==> x in s || x in more
  {
    r := s;
    for i := 0 to |more|
      invariant Distinct(r) && s <= r
      invariant forall x :: x in r <==> x in s || x in more[..i]
    {
      r := Add(r, more[i]);
    }
    assert more[..|more|] == more;
  }

  method SearchThreadHeaders(server: Server, id: string) returns (uids: seq<nat>)
    ensures forall uid: nat :: uid in uids <==> Answers(server, id, uid)
  {
    uids := [];
    for i := 0 to |THREAD_HEADERS|
      invariant forall uid: nat :: uid in uids <==> exists h | h in THREAD_HEADERS[..i] :: AnswersIn(server, h, id, uid)
    {
      ghost var was := uids;
      var result := server.search(THREAD_HEADERS[i], id);
      if result.Some? {
        uids := uids + result.value;
      }
      forall uid: nat
        ensures uid in uids <==> exists h | h in THREAD_HEADERS[..i + 1] :: AnswersIn(server, h, id, uid)
      {
        OneHeaderMore(server, id, uid, i);
      }
    }
    assert THREAD_HEADERS[..|THREAD_HEADERS|] == THREAD_HEADERS;
    assert THREAD_HEADERS[0] == "Message-ID" && THREAD_HEADERS[1] == "References" && THREAD_HEADERS[2] == "In-Reply-To";
    assert forall h :: h in THREAD_HEADERS <==> h == "Message-ID" || h == "References" || h == "In-Reply-To";
  }

  lemma OneHeaderMore(server: Server, id: string, uid: nat, i: nat)
    requires i < |THREAD_HEADERS|
    ensures (exists h | h in THREAD_HEADERS[..i + 1] :: AnswersIn(server, h, id, uid)) <==>
              || (exists h | h in THREAD_HEADERS[..i] :: AnswersIn(server, h, id, uid))
              || AnswersIn(server, THREAD_HEADERS[i], id, uid)
  {
    assert THREAD_HEADERS[..i + 1] == THREAD_HEADERS[..i] + [THREAD_HEADERS[i]];
    assert THREAD_HEADERS[i] in THREAD_HEADERS[..i + 1];
    if h :| h in THREAD_HEADERS[..i] && AnswersIn(server, h, id, uid) {
      assert h in THREAD_HEADERS[..i + 1];
    }
  }

  // ------------------------------------------------------------------ the worklist

  /** Every id searched has its messages among the found ones. */
  ghost predicate Searched(server: Server, searched: set<string>, found: seq<nat>) {
    forall id, uid: nat | id in searched && Answers(server, id, uid) :: uid in found
  }

  /** Every message read has the ids it names among the known ones. */
  ghost predicate Read(server: Server, read: set<nat>, ids: seq<string>) {
    forall uid, id | uid in read && id in server.names(uid) :: id in ids
  }

  lemma SearchReaches(server: Server, start: string, ids: seq<string>, uids: seq<nat>, id: string, more: seq<nat>)
    requires Reached(server, start, ids, uids) && id in ids
    requires forall uid | uid in more :: uid in uids || Answers(server, id, uid)
    ensures Reached(server, start, ids, more)
  {
  }

  lemma ReadReaches(server: Server, start: string, ids: seq<string>, uids: seq<nat>, uid: nat, more: seq<string>)
    requires Reached(server, start, ids, uids) && uid in uids
    requires forall id | id in more :: id in ids || id in server.names(uid)
    ensures Reached(server, start, more, uids)
  {
  }

  /** One pass over the ids not searched yet; it stops once enough messages are known. */
  method SearchPending(server: Server, start: string, ids: seq<string>, searched: set<string>, found: seq<nat>,
                       max: nat)
    returns (searched': set<string>, found': seq<nat>)
    requires Distinct(ids) && Distinct(found) && Reached(server, start, ids, found)
    requires Searched(server, searched, found) && searched <= Elements(ids)
    ensures Distinct(found') && found <= found' && Reached(server, start, ids, found')
    ensures Searched(server, searched', found') && searched <= searched' <= Elements(ids)
    ensures |found'| < max ==> searched' == Elements(ids)
  {
    searched', found' := searched, found;
    for i := 0 to |ids|
      invariant Distinct(found') && found <= found' && Reached(server, start, ids, found')
      invariant Searched(server, searched', found') && searched <= searched' <= Elements(ids)
      invariant forall j | 0 <= j < i :: ids[j] in searched'
      invariant forall j | i <= j < |ids| :: ids[j] in searched' ==> ids[j] in searched
    {
      if ids[i] !in searched {
        if |found'| >= max {
          return;
        }
        var uids := SearchThreadHeaders(server, ids[i]);
        var grown := AddAll(found', uids);
        SearchReaches(server, start, ids, found', ids[i], grown);
        searched', found' := searched' + {ids[i]}, grown;
      }
    }
  }

  /** Adds every id these messages name. */
  method CollectThreadIds(server: Server, start: string, unread: seq<nat>, ids: seq<string>, ghost found: seq<nat>)
    returns (ids': seq<string>)
    requires Distinct(ids) && Reached(server, start, ids, found) && forall uid | uid in unread :: uid in found
    ensures Distinct(ids') && ids <= ids' && Reached(server, start, ids', found)
    ensures Read(server, Elements(unread), ids')
  {
    ids' := ids;
    for i := 0 to |unread|
      invariant Distinct(ids') && ids <= ids' && Reached(server, start, ids', found)
      invariant forall j, id | 0 <= j < i && id in server.names(unread[j]) :: id in ids'
    {
      var grown := AddAll(ids', server.names(unread[i]));
      ReadReaches(server, start, ids', found, unread[i], grown);
      ids' := grown;
    }
  }

  method Unread(found: seq<nat>, read: set<nat>) returns (unread: seq<nat>)
    requires Distinct(found)
    ensures Distinct(unread) && forall uid :: uid in unread <==> uid in found && uid !in read
  {
    unread := [];
    for i := 0 to |found|
      invariant Distinct(unread) && forall uid :: uid in unread <==> uid in found[..i] && uid !in read
    {
      if found[i] !in read {
        unread := unread + [found[i]];
      }
    }
    assert found[..|found|] == found;
  }

  lemma {:induction false} DistinctCount<T>(s: seq<T>)
    requires Distinct(s)
    ensures |Elements(s)| == |s|
  {
    if s != [] {
      var front, last := s[..|s| - 1], s[|s| - 1];
      DistinctCount(front);
      assert Elements(s) == Elements(front) + {last};
    }
  }

  lemma ReadIsFewer(read: set<nat>, found: seq<nat>)
    requires Distinct(found) && read <= Elements(found)
    ensures |read| <= |found|
  {
    DistinctCount(found);
    CountMonotone(read, Elements(found));
  }

  lemma {:induction false} CountMonotone<T>(a: set<T>, b: set<T>)
    requires a <= b
    ensures |a| <= |b|
  {
    assert b == a + (b - a);
  }

  lemma ReadMore(read: set<nat>, was: set<nat>, unread: seq<nat>, found: seq<nat>)
    requires unread != [] && was <= Elements(found) && read == was + Elements(unread) && Distinct(found)
    requires forall uid | uid in unread :: uid in found && uid !in was
    ensures read <= Elements(found) && |was| < |read| <= |found|
  {
    ReadIsFewer(read, found);
    assert unread[0] in unread;
    CountMonotone(was + {unread[0]}, read);
  }

  lemma ReadTwoParts(server: Server, read: set<nat>, ids: seq<string>, unread: seq<nat>, ids': seq<string>)
    requires Read(server, read, ids) && Read(server, Elements(unread), ids') && ids <= ids'
    ensures Read(server, read + Elements(unread), ids')
  {
    forall uid, id | uid in read + Elements(unread) && id in server.names(uid) ensures id in ids' {
      if uid in read {
        assert id in ids;
      }
    }
  }

  method ReadNew(server: Server, start: string, known: seq<string>, found: seq<nat>, read: set<nat>, unread: seq<nat>)
    returns (known': seq<string>, read': set<nat>)
    requires Distinct(known) && Distinct(found) && Reached(server, start, known, found)
    requires read <= Elements(found) && Read(server, read, known)
    requires unread != [] && Distinct(unread) && forall uid | uid in unread :: uid in found && uid !in read
    ensures Distinct(known') && known <= known' && Reached(server, start, known', found)
    ensures read' == read + Elements(unread) && Read(server, read', known') && |read| < |read'| <= |found|
  {
    known' := CollectThreadIds(server, start, unread, known, found);
    read' := read + Elements(unread);
    ReadTwoParts(server, read, known, unread, known');
    ReadMore(read', read, unread, found);
  }

  function AsSet<T(!new)>(s: seq<T>): iset<T> {
    iset x | x in s
  }

  /**
   * At most `max` messages, each once and each reached from the start; fewer than `max` only when
   * nothing is left to follow.
   */
  ghost predicate IsAnswer(server: Server, start: string, max: nat, ids: seq<string>, uids: seq<nat>) {
    && |uids| <= max && Distinct(uids) && Reached(server, start, ids, uids)
    && (|uids| < max ==> Closed(server, start, AsSet(ids), AsSet(uids)))
  }

  /**
   * It ends whatever the server answers: every round but the last reads a message not read before, and
   * fewer than `max` of them.
   */
  method FindThreadUids(server: Server, start: string, max: nat) returns (uids: seq<nat>)
    ensures exists ids :: IsAnswer(server, start, max, ids, uids)
  {
    var known, searched: set<string>, found: seq<nat>, read: set<nat> := [start], {}, [], {};
    var more := true;
    while more
      invariant Distinct(known) && Distinct(found) && start in known && Reached(server, start, known, found)
      invariant searched <= Elements(known) && Searched(server, searched, found)
      invariant read <= Elements(found) && Read(server, read, known) && |read| <= max
      invariant !more && |found| < max ==> searched == Elements(known) && read == Elements(found)
      decreases if more then 1 + max - |read| else 0
    {
      searched, found := SearchPending(server, start, known, searched, found, max);
      var unread := Unread(found, read);
      more := unread != [] && |found| < max;
      if more {
        known, read := ReadNew(server, start, known, found, read, unread);
      } else if |found| < max {
        assert forall uid | uid in found :: uid in read;
      }
    }
    uids := if |found| <= max then found else found[..max];
    if |uids| < max {
      SearchedAllIsClosed(server, start, known, uids, searched, read);
    }
    assert IsAnswer(server, start, max, known, uids);
  }

  lemma SearchedAllIsClosed(server: Server, start: string, ids: seq<string>, uids: seq<nat>, searched: set<string>,
                            read: set<nat>)
    requires start in ids && searched == Elements(ids) && read == Elements(uids)
    requires Searched(server, searched, uids) && Read(server, read, ids)
    ensures Closed(server, start, AsSet(ids), AsSet(uids))
  {
  }

  // ------------------------------------------------------------------ what the answer is

  /**
   * In plain terms: a short answer holds every message found by the start or by an id that one of its
   * messages names, in any of the three headers; and any set of messages that does so holds the answer.
   */
  lemma AnswerFollowsTheHeaders(server: Server, start: string, max: nat, ids: seq<string>, uids: seq<nat>)
    requires IsAnswer(server, start, max, ids, uids)
    ensures |uids| <= max && Distinct(uids)
    ensures |uids| < max ==> Follows(server, start, AsSet(uids))
    ensures forall all: iset<nat> | Follows(server, start, all) :: forall uid | uid in uids :: uid in all
  {
    if |uids| < max {
      ClosedFollows(server, start, AsSet(ids), AsSet(uids));
    }
    forall all: iset<nat>, uid | Follows(server, start, all) && uid in uids ensures uid in all {
      FollowsIsClosed(server, start, all);
    }
  }

  lemma ClosedFollows(server: Server, start: string, ids: iset<string>, uids: iset<nat>)
    requires Closed(server, start, ids, uids)
    ensures Follows(server, start, uids)
  {
    forall id, header, uid: nat |
      && IsNamed(server, start, uids, id)
      && (header == "Message-ID" || header == "References" || header == "In-Reply-To")
      && AnswersIn(server, header, id, uid)
      ensures uid in uids
    {
      assert id in ids && Answers(server, id, uid);
    }
  }

  lemma FollowsIsClosed(server: Server, start: string, uids: iset<nat>)
    requires Follows(server, start, uids)
    ensures Closed(server, start, (iset id | IsNamed(server, start, uids, id)), uids)
  {
    var named := iset id | IsNamed(server, start, uids, id);
    forall id, uid: nat | id in named && Answers(server, id, uid) ensures uid in uids {
      assert IsNamed(server, start, uids, id);
    }
  }

  /** The id searched for, or one that a message of the set names. */
  ghost predicate IsNamed(server: Server, start: string, uids: iset<nat>, id: string) {
    id == start || exists u: nat :: u in uids && id in server.names(u)
  }

  ghost predicate Follows(server: Server, start: string, uids: iset<nat>) {
    forall id, header, uid: nat |
      && IsNamed(server, start, uids, id)
      && (header == "Message-ID" || header == "References" || header == "In-Reply-To")
      && AnswersIn(server, header, id, uid) :: uid in uids
  }

  function Members(s: set<nat>): iset<nat> {
    iset uid | uid in s
  }

  ghost predicate IsThread(server: Server, start: string, thread: set<nat>) {
    && (exists ids :: Closed(server, start, ids, Members(thread)))
    && (forall ids, uids | Closed(server, start, ids, uids) :: forall uid | uid in thread :: uid in uids)
  }

  lemma ShortAnswerIsTheThread(server: Server, start: string, max: nat, ids: seq<string>, uids: seq<nat>)
    requires IsAnswer(server, start, max, ids, uids) && |uids| < max
    ensures IsThread(server, start, Elements(uids))
  {
    assert Members(Elements(uids)) == AsSet(uids);
  }

  /**
   * For a thread of any finite size: the answer is the thread if it is shorter than `max`, and `max` of
   * its messages if not.
   */
  lemma AnswerIsTheThreadOrMaxOfIt(server: Server, start: string, max: nat, ids: seq<string>, uids: seq<nat>,
                                   thread: set<nat>)
    requires IsAnswer(server, start, max, ids, uids) && IsThread(server, start, thread)
    ensures Elements(uids) <= thread
    ensures |thread| <= max ==> Elements(uids) == thread
    ensures |thread| >= max ==> |uids| == max
  {
    var closedIds :| Closed(server, start, closedIds, Members(thread));
    assert forall uid | uid in uids :: uid in thread;
    DistinctCount(uids);
    CountMonotone(Elements(uids), thread);
    if |uids| < max {
      assert forall uid | uid in thread :: uid in AsSet(uids);
      assert thread == Elements(uids);
    } else if |thread| <= max {
      SameCount(Elements(uids), thread);
    }
  }

  lemma SameCount<T>(a: set<T>, b: set<T>)
    requires a <= b && |a| >= |b|
    ensures a == b
  {
    assert b == a + (b - a);
  }
}
