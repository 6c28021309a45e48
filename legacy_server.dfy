/**
 * The earlier local server of src/ui/server.py. It keeps the same list of
 * client sockets as the hosted revision, with three differences that matter
 * to the list: `broadcast` walks the live list and removes a failed client
 * without checking it is still there, `accept_clients` has no exception
 * handler (the first failing `accept` ends the accept thread), and
 * `handle_client` removes its own socket without checking either, which
 * raises a ValueError when a broadcast has already dropped it.
 *
 * Network behaviour is a parameter, as in `HostedServer`, whose event types
 * this module shares.
 */
module LegacyServer {
  import opened Wrappers
  import opened Registry
  import opened HostedServer

  const LegacyHost: string := "192.168.1.130"
  const LegacyPort: int := 12345
  /** The `listen` backlog. */
  const LegacyBacklog: int := 2

  /** How many connections the accept thread takes before the first error. */
  function ConnectionsBeforeError(events: seq<AcceptEvent>): (n: nat)
    ensures n <= |events|
    ensures n < |events| ==> events[n].AcceptError?
    ensures forall j :: 0 <= j < n ==> events[j].Connected?
  {
    if events == [] || events[0].AcceptError? then 0
    else 1 + ConnectionsBeforeError(events[1..])
  }

  /**
   * The clients listed when the accept thread has handled `events`: the
   * thread is the hosted accept loop run over the connections before the
   * first `accept` that raises (always the case on a socket that is not
   * listening), which ends the thread.
   */
  function AcceptUntilError(s: seq<ClientId>, next: nat, listening: bool, events: seq<AcceptEvent>): (r: seq<ClientId>)
    ensures forall c :: c in r ==> c in s || next <= c < next + ConnectionsBeforeError(events)
  {
    AfterAccepts(s, next, listening, events[..ConnectionsBeforeError(events)])
  }

  /** Every successful `send` of the accept thread's `start_game` broadcasts, up to the first error. */
  function AcceptLogUntilError(s: seq<ClientId>, next: nat, listening: bool, events: seq<AcceptEvent>): seq<(ClientId, string)>
  {
    AcceptLog(s, next, listening, events[..ConnectionsBeforeError(events)])
  }

  /** The sockets the accept thread's `start_game` broadcasts close, up to the first error. */
  function AcceptClosesUntilError(s: seq<ClientId>, next: nat, listening: bool, events: seq<AcceptEvent>): set<ClientId>
  {
    AcceptCloses(s, next, listening, events[..ConnectionsBeforeError(events)])
  }

  /**
   * The accept thread's start broadcasts, told from the books: only the start
   * message, only to clients listed at the start or accepted before the
   * first error, and a socket they close is not listed when the thread ends.
   */
  lemma AcceptBooksUntilError(s: seq<ClientId>, next: nat, listening: bool, events: seq<AcceptEvent>)
    requires Distinct(s) && forall c :: c in s ==> c < next
    ensures forall p :: p in AcceptLogUntilError(s, next, listening, events) ==>
      p.1 == StartMessage && (p.0 in s || next <= p.0 < next + ConnectionsBeforeError(events))
    ensures forall c :: c in AcceptClosesUntilError(s, next, listening, events) ==>
      (c in s || next <= c < next + ConnectionsBeforeError(events)) && c !in AcceptUntilError(s, next, listening, events)
  {
    AcceptBooks(s, next, listening, events[..ConnectionsBeforeError(events)]);
  }

  /** The count stops at the first error, whatever follows it. */
  lemma {:induction false} ConnectionsStopAtError(events: seq<AcceptEvent>, later: seq<AcceptEvent>)
    requires ConnectionsBeforeError(events) < |events|
    ensures ConnectionsBeforeError(events + later) == ConnectionsBeforeError(events)
    decreases |events|
  {
    assert (events + later)[0] == events[0];
    if events[0].Connected? {
      assert (events + later)[1..] == events[1..] + later;
      ConnectionsStopAtError(events[1..], later);
    }
  }

  /** Events after the first error play no part. */
  lemma AcceptStopsAtError(s: seq<ClientId>, next: nat, listening: bool, events: seq<AcceptEvent>, later: seq<AcceptEvent>)
    requires ConnectionsBeforeError(events) < |events|
    ensures ConnectionsBeforeError(events + later) == ConnectionsBeforeError(events)
    ensures AcceptUntilError(s, next, listening, events + later) == AcceptUntilError(s, next, listening, events)
    ensures AcceptLogUntilError(s, next, listening, events + later) == AcceptLogUntilError(s, next, listening, events)
    ensures AcceptClosesUntilError(s, next, listening, events + later) == AcceptClosesUntilError(s, next, listening, events)
  {
    ConnectionsStopAtError(events, later);
    var n := ConnectionsBeforeError(events);
    assert (events + later)[..n] == events[..n];
  }

  /** One connection the accept thread takes, on the pure side: the start broadcast's entries come first. */
  lemma AcceptTakenStep(s: seq<ClientId>, next: nat, listening: bool, taken: seq<AcceptEvent>, k: nat, failing: set<ClientId>,
                        outbox: seq<(ClientId, string)>, closed: set<ClientId>,
                        target: seq<ClientId>, log: seq<(ClientId, string)>, shut: set<ClientId>)
    requires k < |taken| && listening && taken[k] == Connected(failing)
    requires target == AfterAccepts(s, next, listening, taken[k..])
    requires log == outbox + AcceptLog(s, next, listening, taken[k..])
    requires shut == closed + AcceptCloses(s, next, listening, taken[k..])
    ensures var f := Walk(s + [next], None, failing);
      && target == AfterAccepts(f.survivors, next + 1, listening, taken[k + 1..])
      && log == (outbox + Delivered(f.attempted, failing, StartMessage)) + AcceptLog(f.survivors, next + 1, listening, taken[k + 1..])
      && shut == (closed + Closes(f.attempted, failing)) + AcceptCloses(f.survivors, next + 1, listening, taken[k + 1..])
  {
    AcceptBooksStep(s, next, listening, taken, k, outbox, closed, target, log, shut);
  }

  /**
   * The earlier cleanup after the start-game broadcast has dropped a
   * client whose send failed: the client's own `handle_client` then
   * removes it a second time and raises.
   */
  lemma DroppedClientCleanupRaises(c: ClientId)
    ensures Walk([c], None, {c}).survivors == []
    ensures UnguardedRemove(Walk([c], None, {c}).survivors, c) == None
  {
    assert [c][1..] == [];
  }

  class Serveur {
    const host: string
    const port: int
    var clients: seq<ClientId>
    var nextId: nat
    var closed: set<ClientId>
    var listening: bool
    var outbox: seq<(ClientId, string)>

    ghost predicate Valid()
      reads this
    {
      Distinct(clients) && forall c :: c in clients ==> c < nextId
    }

    /** `Serveur()`: the fixed address, no clients, bound but not listening. */
    constructor()
      ensures host == LegacyHost && port == LegacyPort
      ensures clients == [] && closed == {} && outbox == [] && !listening
      ensures Valid()
    {
      host := LegacyHost;
      port := LegacyPort;
      clients := [];
      nextId := 0;
      closed := {};
      listening := false;
      outbox := [];
    }

    /** `start_server`: listen; the accept thread is `AcceptClients`. */
    method StartServer()
      modifies this
      ensures listening
      ensures clients == old(clients) && nextId == old(nextId) && closed == old(closed) && outbox == old(outbox)
    {
      listening := true;
    }

    /**
     * One client of `broadcast`'s loop: `send`; when it raises, close the
     * socket and `remove` it with no check. The loop only calls this on the
     * client it is standing on, which is listed, so the removal never raises.
     */
    method SendOrDrop(c: ClientId, message: string, failing: set<ClientId>,
                      ghost sent: seq<ClientId>, ghost closed0: set<ClientId>, ghost outbox0: seq<(ClientId, string)>)
      requires Valid() && c in clients
      requires closed == closed0 + Closes(sent, failing)
      requires outbox == outbox0 + Delivered(sent, failing, message)
      modifies this
      ensures Valid()
      ensures clients == if c in failing then Deregister(old(clients), c) else old(clients)
      ensures closed == closed0 + Closes(sent + [c], failing)
      ensures outbox == outbox0 + Delivered(sent + [c], failing, message)
      ensures nextId == old(nextId) && listening == old(listening)
    {
      LogStep(closed, outbox, closed0, outbox0, sent, c, failing, message);
      if c !in failing {
        outbox := outbox + [(c, message)];
      } else {
        closed := closed + {c};
        DeregisterKeepsValid(clients, c, nextId);
        var r := UnguardedRemove(clients, c);
        clients := r.value;
      }
    }

    /** `broadcast`: the live-list walk of `Registry.Walk`, with an unguarded removal. */
    method Broadcast(message: string, sender: Option<ClientId>, failing: set<ClientId>) returns (attempted: seq<ClientId>)
      requires Valid()
      modifies this
      ensures Valid()
      ensures attempted == Walk(old(clients), sender, failing).attempted
      ensures clients == Walk(old(clients), sender, failing).survivors
      ensures closed == old(closed) + Closes(attempted, failing)
      ensures outbox == old(outbox) + Delivered(attempted, failing, message)
      ensures nextId == old(nextId) && listening == old(listening)
    {
      ghost var w := Walk(clients, sender, failing);
      attempted := [];
      var i := 0;
      WalkLoopEntry(clients, sender, failing);
      while i < |clients|
        invariant i <= |clients| + 1
        invariant Valid() && nextId == old(nextId) && listening == old(listening)
        invariant WalkAt(w, clients, i, attempted, sender, failing)
        invariant closed == old(closed) + Closes(attempted, failing)
        invariant outbox == old(outbox) + Delivered(attempted, failing, message)
        decreases |clients| + 1 - i
      {
        attempted := Visit(i, message, sender, failing, attempted, w, old(closed), old(outbox));
        i := i + 1;
      }
      WalkLoopExit(w, clients, i, attempted, sender, failing);
    }

    /**
     * One turn of `broadcast`'s loop, on the client at index `i`: sent to
     * unless it is the sender, dropped if its send fails. The iterator then
     * moves on by one, whatever happened to the list.
     */
    method Visit(i: nat, message: string, sender: Option<ClientId>, failing: set<ClientId>, attempted: seq<ClientId>,
                 ghost w: Fan, ghost closed0: set<ClientId>, ghost outbox0: seq<(ClientId, string)>)
      returns (attempted': seq<ClientId>)
      requires Valid() && i < |clients|
      requires WalkAt(w, clients, i, attempted, sender, failing)
      requires closed == closed0 + Closes(attempted, failing)
      requires outbox == outbox0 + Delivered(attempted, failing, message)
      modifies this
      ensures Valid() && i + 1 <= |clients| + 1 && |clients| <= old(|clients|)
      ensures WalkAt(w, clients, i + 1, attempted', sender, failing)
      ensures closed == closed0 + Closes(attempted', failing)
      ensures outbox == outbox0 + Delivered(attempted', failing, message)
      ensures nextId == old(nextId) && listening == old(listening)
    {
      var c := clients[i];
      assert Done(clients, i) == clients[..i] && Ahead(clients, i) == clients[i..];
      WalkLoopStep(clients, i, sender, failing, attempted);
      if Targets(c, sender) {
        SendOrDrop(c, message, failing, attempted, closed0, outbox0);
        attempted' := attempted + [c];
      } else {
        attempted' := attempted;
        assert attempted + [] == attempted;
      }
    }

    /** `start_game`: the start message, broadcast with no sender. */
    method StartGame(failing: set<ClientId>) returns (attempted: seq<ClientId>)
      requires Valid()
      modifies this
      ensures Valid()
      ensures attempted == Walk(old(clients), None, failing).attempted
      ensures clients == Walk(old(clients), None, failing).survivors
      ensures closed == old(closed) + Closes(attempted, failing)
      ensures outbox == old(outbox) + Delivered(attempted, failing, StartMessage)
      ensures nextId == old(nextId) && listening == old(listening)
    {
      attempted := Broadcast(StartMessage, None, failing);
    }

    /**
     * `accept_clients`: take connections, each followed by `start_game`,
     * until the first `accept` that raises, which ends the thread.
     */
    method AcceptClients(events: seq<AcceptEvent>) returns (accepted: seq<ClientId>)
      requires Valid()
      modifies this
      ensures Valid()
      ensures clients == AcceptUntilError(old(clients), old(nextId), listening, events)
      ensures outbox == old(outbox) + AcceptLogUntilError(old(clients), old(nextId), listening, events)
      ensures closed == old(closed) + AcceptClosesUntilError(old(clients), old(nextId), listening, events)
      ensures |accepted| == (if listening then ConnectionsBeforeError(events) else 0)
      ensures forall j :: 0 <= j < |accepted| ==> accepted[j] == old(nextId) + j
      ensures nextId == old(nextId) + |accepted|
      ensures listening == old(listening)
    {
      accepted := [];
      ghost var taken := events[..ConnectionsBeforeError(events)];
      if !listening {
        AcceptAfterStopChangesNothing(clients, nextId, taken);
        assert outbox + [] == outbox && closed + {} == closed;
        return;
      }
      ghost var target := AfterAccepts(clients, nextId, listening, taken);
      ghost var log := outbox + AcceptLog(clients, nextId, listening, taken);
      ghost var shut := closed + AcceptCloses(clients, nextId, listening, taken);
      assert taken[0..] == taken;
      var k := 0;
      while k < |events| && events[k].Connected?
        invariant k <= |taken|
        invariant Valid() && listening
        invariant target == AfterAccepts(clients, nextId, listening, taken[k..])
        invariant log == outbox + AcceptLog(clients, nextId, listening, taken[k..])
        invariant shut == closed + AcceptCloses(clients, nextId, listening, taken[k..])
        invariant |accepted| == k && nextId == old(nextId) + k
        invariant forall j :: 0 <= j < k ==> accepted[j] == old(nextId) + j
        decreases |events| - k
      {
        AcceptTurn(events[k].failing, taken, k, target, log, shut);
        accepted := accepted + [nextId - 1];
        k := k + 1;
      }
      assert k == |taken| && taken[k..] == [];
      assert outbox + [] == outbox && closed + {} == closed;
    }

    /** One pass of the accept loop on a connection: what the rest of the thread lists, sends and closes is unchanged. */
    method AcceptTurn(failing: set<ClientId>, ghost taken: seq<AcceptEvent>, k: nat, ghost target: seq<ClientId>,
                      ghost log: seq<(ClientId, string)>, ghost shut: set<ClientId>)
      requires Valid() && listening && k < |taken| && taken[k] == Connected(failing)
      requires target == AfterAccepts(clients, nextId, listening, taken[k..])
      requires log == outbox + AcceptLog(clients, nextId, listening, taken[k..])
      requires shut == closed + AcceptCloses(clients, nextId, listening, taken[k..])
      modifies this
      ensures Valid() && listening
      ensures target == AfterAccepts(clients, nextId, listening, taken[k + 1..])
      ensures log == outbox + AcceptLog(clients, nextId, listening, taken[k + 1..])
      ensures shut == closed + AcceptCloses(clients, nextId, listening, taken[k + 1..])
      ensures nextId == old(nextId) + 1
    {
      AcceptTakenStep(clients, nextId, listening, taken, k, failing, outbox, closed, target, log, shut);
      AcceptOne(failing);
    }

    /** One connection: list the new socket, then `start_game`. */
    method AcceptOne(failing: set<ClientId>)
      requires Valid()
      modifies this
      ensures Valid()
      ensures clients == Walk(old(clients) + [old(nextId)], None, failing).survivors
      ensures var w := Walk(old(clients) + [old(nextId)], None, failing);
        && outbox == old(outbox) + Delivered(w.attempted, failing, StartMessage)
        && closed == old(closed) + Closes(w.attempted, failing)
      ensures nextId == old(nextId) + 1 && listening == old(listening)
    {
      AppendFresh(clients, nextId);
      clients := clients + [nextId];
      nextId := nextId + 1;
      var _ := StartGame(failing);
    }

    /**
     * `handle_client`: relay every message until the peer closes or `recv`
     * raises, close the socket, and `remove` it with no check. `raised` is
     * the ValueError of a socket that is no longer listed.
     */
    method HandleClient(me: ClientId, script: seq<RecvEvent>) returns (raised: bool)
      requires Valid()
      modifies this
      ensures Valid()
      ensures raised <==> me !in old(clients)
      ensures clients == Deregister(Relay(old(clients), me, script), me)
      ensures outbox == old(outbox) + RelayLog(old(clients), me, script)
      ensures closed == old(closed) + RelayCloses(old(clients), me, script) + {me}
      ensures me !in clients
      ensures nextId == old(nextId) && listening == old(listening)
    {
      RelayShrinks(clients, me, script);
      RelayAll(me, script);
      closed := closed + {me};
      DeregisterKeepsValid(clients, me, nextId);
      var r := UnguardedRemove(clients, me);
      raised := r.None?;
      if !raised {
        clients := r.value;
      }
    }

    /** The `while True` loop of `handle_client`: one broadcast per message received, until the loop breaks. */
    method RelayAll(me: ClientId, script: seq<RecvEvent>)
      requires Valid()
      modifies this
      ensures Valid()
      ensures clients == Relay(old(clients), me, script)
      ensures outbox == old(outbox) + RelayLog(old(clients), me, script)
      ensures closed == old(closed) + RelayCloses(old(clients), me, script)
      ensures nextId == old(nextId) && listening == old(listening)
    {
      var k := 0;
      while k < |script| && !Ends(script[k])
        invariant k <= |script|
        invariant Valid()
        invariant Relay(old(clients), me, script) == Relay(clients, me, script[k..])
        invariant old(outbox) + RelayLog(old(clients), me, script) == outbox + RelayLog(clients, me, script[k..])
        invariant old(closed) + RelayCloses(old(clients), me, script) == closed + RelayCloses(clients, me, script[k..])
        invariant nextId == old(nextId) && listening == old(listening)
        decreases |script| - k
      {
        RelayTurn(clients, me, script, k, outbox);
        var _ := Broadcast(script[k].text, Some(me), script[k].failing);
        k := k + 1;
      }
      assert RelayLog(clients, me, script[k..]) == [] && RelayCloses(clients, me, script[k..]) == {};
    }
  }
}
