/**
 * The connection manager for one account and one protocol, as an interleaving of callers. Each
 * method is one stretch of code between two awaits.
 */
module Connections {
  import opened Wrappers
  import opened Backoff

  /** Where a connect stands. `Settled` has its result, but its `finally` has not run. */
  datatype Phase =
    | Authenticating
    | Connecting(client: nat)
    | Logging(client: nat)
    | Settled
    | Done

  datatype Reply = Existing(client: nat) | Joined(attempt: nat)

  class ConnectionManager {
    /** The maps' entries for this account. */
    var client: Option<nat>
    var connecting: Option<nat>
    const backoff: ConnectBackoff
    /** The entry of the backoff: the protocol and the account. */
    const key: string

    /** Every connect ever started, by number. */
    var attempts: seq<Phase>
    var clients: nat

    /**
     * Clients ever put into the map, clients whose connection may be open, and the failures in a row with
     * the times they started.
     */
    ghost var mapped: set<nat>
    ghost var open: set<nat>
    ghost var failures: seq<Attempt>
    ghost var started: seq<int>

    ghost predicate Valid()
      reads this, backoff
    {
      OneInFlight() && NoneLost() && LastFailure() == AfterAll(failures) && InARow(failures) && WaitedFor()
    }

    function LastFailure(): Option<Failure>
      reads backoff
    {
      backoff.Of(key)
    }

    /** A connect is unfinished exactly while the map holds it, so two never run at once. */
    ghost predicate OneInFlight()
      reads this
    {
      && (connecting.Some? ==> connecting.value < |attempts|)
      && forall a | 0 <= a < |attempts| :: attempts[a] != Done <==> connecting == Some(a)
    }

    predicate Busy()
      reads this
    {
      connecting.Some? && connecting.value < |attempts|
      && (attempts[connecting.value].Authenticating? || attempts[connecting.value].Connecting?
          || attempts[connecting.value].Logging?)
    }

    /** An open client is in the map, or the connect in flight will put it there. */
    ghost predicate NoneLost()
      reads this
    {
      && (client.Some? ==> client.value in mapped)
      && (forall c | c in mapped :: c < clients && !HeldByConnect(c))
      && (Busy() ==> client.None?)
      && (forall a | 0 <= a < |attempts| && (attempts[a].Connecting? || attempts[a].Logging?) ::
          attempts[a].client < clients)
      && (forall c | c in open :: c < clients && (client == Some(c) || HeldByConnect(c)))
    }

    ghost predicate HeldByConnect(c: nat)
      reads this
    {
      Busy() && !attempts[connecting.value].Authenticating? && attempts[connecting.value].client == c
    }

    /** The connect in flight was let through by the failures before it. */
    ghost predicate WaitedFor()
      reads this, backoff
    {
      && |started| == |attempts|
      && (Busy() && !attempts[connecting.value].Logging? ==> Ready(LastFailure(), started[connecting.value]))
    }

    constructor (protocolAndName: string)
      ensures Valid() && fresh(backoff) && key == protocolAndName
      ensures client.None? && connecting.None? && open == {} && failures == []
    {
      key := protocolAndName;
      backoff := new ConnectBackoff();
      client, connecting, attempts, clients := None, None, [], 0;
      mapped, open, failures, started := {}, {}, [], [];
    }

    /** The caller has the connect under way, or the one it has just begun; none begins in a window of the backoff. */
    predicate Joins(inFlight: Option<nat>, before: seq<Phase>, now: int, reply: Reply)
      reads this, backoff
    {
      if inFlight.Some? then attempts == before && reply == Joined(inFlight.value)
      else attempts == before + [if Ready(LastFailure(), now) then Authenticating else Settled]
           && reply == Joined(|before|)
    }

    /** A second caller joins the connect under way; assertReady can refuse a first one at once. */
    method JoinOrStart(now: int) returns (reply: Reply)
      requires Valid() && client.None?
      modifies this`connecting, this`attempts, this`started
      ensures Valid() && reply.Joined? && connecting == Some(reply.attempt)
      ensures Joins(old(connecting), old(attempts), now, reply)
    {
      if connecting.Some? {
        return Joined(connecting.value);
      }
      var wait := backoff.AssertReady(key, now);
      var phase := if wait.None? then Authenticating else Settled;
      attempts, started := attempts + [phase], started + [now];
      connecting := Some(|attempts| - 1);
      reply := Joined(|attempts| - 1);
    }

    /** getImapClient, up to its first await. */
    method GetImapClient(usable: bool, now: int) returns (reply: Reply)
      requires Valid()
      modifies this`client, this`open, this`connecting, this`attempts, this`started
      ensures Valid()
      ensures old(client).Some? && usable ==>
                reply == Existing(old(client).value) && client == old(client)
                && connecting == old(connecting) && attempts == old(attempts) && open == old(open)
      ensures !(old(client).Some? && usable) ==>
                reply.Joined? && client.None? && connecting == Some(reply.attempt)
                && Joins(old(connecting), old(attempts), now, reply)
                && open == if old(client).Some? then old(open) - {old(client).value} else old(open)
    {
      if client.Some? && usable {
        return Existing(client.value);
      }
      if client.Some? {
        open := open - {client.value};
        client := None;
      }
      reply := JoinOrStart(now);
    }

    /** getSmtpTransport without verification, up to its first await. */
    method GetSmtpTransport(now: int) returns (reply: Reply)
      requires Valid()
      modifies this`connecting, this`attempts, this`started
      ensures Valid()
      ensures client.Some? ==>
                reply == Existing(client.value) && connecting == old(connecting) && attempts == old(attempts)
      ensures client.None? ==>
                reply.Joined? && connecting == Some(reply.attempt) && Joins(old(connecting), old(attempts), now, reply)
    {
      if client.Some? {
        return Existing(client.value);
      }
      reply := JoinOrStart(now);
    }

    /**
     * A transport a caller took from the map and verified did not answer: drop it, unless it was replaced
     * meanwhile.
     */
    method VerifyFailed(existing: nat, now: int) returns (reply: Reply)
      requires Valid() && existing in mapped
      modifies this`client, this`open, this`connecting, this`attempts, this`started
      ensures Valid() && open == old(open) - {existing}
      ensures old(client).Some? && old(client) != Some(existing) ==>
                reply == Existing(old(client).value) && client == old(client)
                && connecting == old(connecting) && attempts == old(attempts)
      ensures old(client).None? || old(client) == Some(existing) ==>
                reply.Joined? && client.None?
                && connecting == Some(reply.attempt) && Joins(old(connecting), old(attempts), now, reply)
    {
      var current := client;
      if current == Some(existing) {
        client := None;
      }
      open := open - {existing};
      if current.Some? && current != Some(existing) {
        return Existing(current.value);
      }
      reply := JoinOrStart(now);
    }

    /** The credentials are ready, or asking for them failed. */
    method Authenticated(ok: bool, now: int, random: real)
      requires Valid() && connecting.Some? && attempts[connecting.value].Authenticating? && IsDraw(random)
      modifies this`attempts, this`clients, this`open, this`failures, backoff
      ensures Valid() && connecting == old(connecting)
      ensures ok ==>
                attempts == old(attempts)[connecting.value := Connecting(old(clients))]
                && open == old(open) + {old(clients)} && failures == old(failures)
      ensures ok ==> clients == old(clients) + 1
      ensures !ok ==> attempts == old(attempts)[connecting.value := Settled] && clients == old(clients)
                      && failures == old(failures) + [Attempt(started[connecting.value], now, random)]
    {
      var id := connecting.value;
      if ok {
        attempts := attempts[id := Connecting(clients)];
        open, clients := open + {clients}, clients + 1;
      } else {
        Failed(id, now, random);
      }
    }

    /** recordFailure, and the client of the attempt closed. */
    method Failed(id: nat, now: int, random: real)
      requires Valid() && connecting == Some(id) && (attempts[id].Authenticating? || attempts[id].Connecting?)
               && IsDraw(random)
      modifies this`attempts, this`open, this`failures, backoff
      ensures Valid() && attempts == old(attempts)[id := Settled]
      ensures failures == old(failures) + [Attempt(started[id], now, random)]
      ensures open == if old(attempts[id]).Connecting? then old(open) - {old(attempts[id]).client} else old(open)
    {
      RecordFailure(id, now, random);
      CloseAndSettle(id);
    }

    method RecordFailure(id: nat, now: int, random: real)
      requires Valid() && connecting == Some(id) && (attempts[id].Authenticating? || attempts[id].Connecting?)
               && IsDraw(random)
      modifies this`failures, backoff
      ensures OneInFlight() && NoneLost() && |started| == |attempts| && LastFailure() == AfterAll(failures)
              && InARow(failures)
      ensures failures == old(failures) + [Attempt(started[id], now, random)]
    {
      OneFailureMore(failures, Attempt(started[id], now, random));
      backoff.RecordFailure(key, now, random);
      failures := failures + [Attempt(started[id], now, random)];
    }

    method CloseAndSettle(id: nat)
      requires OneInFlight() && NoneLost() && |started| == |attempts| && LastFailure() == AfterAll(failures)
               && InARow(failures)
      requires connecting == Some(id) && (attempts[id].Authenticating? || attempts[id].Connecting?)
      modifies this`attempts, this`open
      ensures Valid() && attempts == old(attempts)[id := Settled]
      ensures open == if old(attempts[id]).Connecting? then old(open) - {old(attempts[id]).client} else old(open)
    {
      if attempts[id].Connecting? {
        open := open - {attempts[id].client};
      }
      attempts := attempts[id := Settled];
      assert attempts[id] == Settled;
    }

    /** The login came back. */
    method Connected(ok: bool, now: int, random: real)
      requires Valid() && connecting.Some? && attempts[connecting.value].Connecting? && IsDraw(random)
      modifies this`attempts, this`open, this`failures, backoff
      ensures Valid() && connecting == old(connecting)
      ensures ok ==> attempts == old(attempts)[connecting.value := Logging(old(attempts[connecting.value].client))]
                     && open == old(open) && failures == [] && LastFailure().None?
      ensures !ok ==> attempts == old(attempts)[connecting.value := Settled]
                      && open == old(open) - {old(attempts[connecting.value].client)}
                      && failures == old(failures) + [Attempt(started[connecting.value], now, random)]
    {
      var id := connecting.value;
      if ok {
        backoff.RecordSuccess(key);
        failures := [];
        attempts := attempts[id := Logging(attempts[id].client)];
      } else {
        assert HeldByConnect(attempts[id].client);
        Failed(id, now, random);
      }
    }

    /** The log line is written: the client goes into the map, over nothing. */
    method Logged()
      requires Valid() && connecting.Some? && attempts[connecting.value].Logging?
      modifies this`attempts, this`client, this`mapped
      ensures Valid() && old(client).None? && client == Some(old(attempts[connecting.value].client))
      ensures attempts == old(attempts)[connecting.value := Settled]
    {
      var id := connecting.value;
      client, mapped := Some(attempts[id].client), mapped + {attempts[id].client};
      attempts := attempts[id := Settled];
    }

    method Finally()
      requires Valid() && connecting.Some? && attempts[connecting.value].Settled?
      modifies this`attempts, this`connecting
      ensures Valid() && connecting.None? && attempts == old(attempts)[old(connecting).value := Done]
    {
      attempts := attempts[connecting.value := Done];
      connecting := None;
    }

    /** The server or the socket ended a connection; only the current client leaves the map. */
    method ClientGone(c: nat)
      requires Valid()
      modifies this`client, this`open
      ensures Valid() && open == old(open) - {c} && client == if old(client) == Some(c) then None else old(client)
    {
      if client == Some(c) {
        client := None;
      }
      open := open - {c};
    }

    /**
     * closeAll deletes the account's entry once the client it found there has logged out, whatever the
     * entry is by then.
     */
    method LogoutDone(c: nat)
      requires Valid()
      modifies this`client, this`open
      ensures client.None? && open == old(open) - {c}
      ensures Valid() <==> old(client).None? || old(client) == Some(c) || old(client).value !in old(open)
    {
      open := open - {c};
      client := None;
      assert forall d | old(HeldByConnect(d)) :: HeldByConnect(d);
      if old(client).Some? && old(client) != Some(c) && old(client).value in old(open) {
        assert old(client).value in open;
      }
    }

    /** closeAll once the connects it waits for have settled, when no call comes in between: nothing stays open. */
    method CloseAll()
      requires Valid() && connecting.None?
      modifies this`client, this`open
      ensures Valid() && client.None? && open == {}
    {
      if client.Some? {
        LogoutDone(client.value);
      }
    }

    /** In any interleaving: one connect at a time, and after k failures in a row it waited for the k-th delay. */
    lemma ConnectsWait()
      requires Valid() && Busy() && !attempts[connecting.value].Logging? && failures != []
      ensures forall a | 0 <= a < |attempts| && attempts[a] != Done :: a == connecting.value
      ensures 4 * (started[connecting.value] - failures[|failures| - 1].failedAt) > 3 * FullDelay(|failures|)
      ensures Forward(failures) ==> 4 * (started[connecting.value] - failures[0].failedAt) > 3 * DelaySum(|failures|)
    {
      DelayAfter(failures);
      if Forward(failures) {
        FailuresTakeTheirTime(failures, started[connecting.value]);
      }
    }
  }

  /** A whole connect nobody interrupts. */
  method ConnectOnce(m: ConnectionManager, now: int, random: real) returns (c: nat)
    requires m.Valid() && m.client.None? && m.connecting.None? && m.LastFailure().None? && IsDraw(random)
    modifies m, m.backoff
    ensures m.Valid() && m.client == Some(c) && m.connecting.None? && m.LastFailure().None?
    ensures c == old(m.clients) && m.open == old(m.open) + {c}
  {
    var reply := m.GetImapClient(true, now);
    m.Authenticated(true, now, random);
    c := m.clients - 1;
    m.Connected(true, now, random);
    m.Logged();
    m.Finally();
  }

  /**
   * A client is connected and closeAll begins to log it out; it goes, a call connects another one, and
   * the end of the logout deletes that one's entry: open, and in no map.
   */
  method LogoutLosesAClient(key: string, now: int, random: real) returns (m: ConnectionManager, lost: nat)
    requires IsDraw(random)
    ensures fresh(m) && lost in m.open && m.client.None? && m.connecting.None?
  {
    m := new ConnectionManager(key);
    var first := ConnectOnce(m, now, random);
    m.ClientGone(first);
    lost := ConnectOnce(m, now, random);
    m.LogoutDone(first);
  }
}
