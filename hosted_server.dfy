/**
 * The hosted game server of server_files_hosted_katabump/server.py: a
 * `Serveur` whose `clients` list is updated in place by the accept loop,
 * the per-client relay loop, `broadcast` and the shutdown code.
 *
 * Sockets are client ids; `accept` hands out the next unused id. What the
 * network does is a parameter: the set `failing` of clients whose `send`
 * raises during one broadcast, the `RecvEvent`s one client's `recv` calls
 * return, the `AcceptEvent`s the listening socket's `accept` calls return.
 * Every client a `send` reached is logged in `outbox`, with the message.
 */
module HostedServer {
  import opened Wrappers
  import opened Registry

  const DefaultHost: string := "127.0.0.1"
  const DefaultPort: int := 12345
  /** The `listen` backlog. */
  const MaxClients: int := 2
  const MessageBufferSize: int := 1024
  const StartMessage: string := "Le jeu commence maintenant!"

  /**
   * One `recv` in `handle_client`: the decoded text (empty once the peer has
   * closed), together with the clients whose `send` fails while that text is
   * relayed; or an exception.
   */
  datatype RecvEvent = Received(text: string, failing: set<ClientId>) | RecvError

  /** `data` is empty or `recv` raised: the relay loop breaks. */
  predicate Ends(e: RecvEvent) {
    e.RecvError? || e.text == ""
  }

  /**
   * The clients listed when a client's relay loop breaks, from the list `s`
   * it starts with: every message it received went through `broadcast`,
   * which walks the live list (`Registry.Walk`). A script that runs out
   * stands for a peer that closed. The guard `if client in self.clients`
   * before a removal always holds during the walk, so both revisions of the
   * server relay alike.
   */
  function Relay(s: seq<ClientId>, me: ClientId, script: seq<RecvEvent>): (r: seq<ClientId>)
    ensures |r| <= |s|
    decreases |script|
  {
    if script == [] || Ends(script[0]) then s
    else Relay(Walk(s, Some(me), script[0].failing).survivors, me, script[1..])
  }

  /** Every successful `send` of a relay loop, in order, with the text relayed. */
  function RelayLog(s: seq<ClientId>, me: ClientId, script: seq<RecvEvent>): seq<(ClientId, string)>
    decreases |script|
  {
    if script == [] || Ends(script[0]) then []
    else
      var f := Walk(s, Some(me), script[0].failing);
      Delivered(f.attempted, script[0].failing, script[0].text) + RelayLog(f.survivors, me, script[1..])
  }

  /** The sockets a relay loop's broadcasts close. */
  function RelayCloses(s: seq<ClientId>, me: ClientId, script: seq<RecvEvent>): set<ClientId>
    decreases |script|
  {
    if script == [] || Ends(script[0]) then {}
    else
      var f := Walk(s, Some(me), script[0].failing);
      Closes(f.attempted, script[0].failing) + RelayCloses(f.survivors, me, script[1..])
  }

  /**
   * A relay loop only ever takes clients out, keeps its own client exactly
   * when it was listed (the sender is not sent to), and keeps the list free
   * of duplicates.
   */
  lemma {:induction false} RelayShrinks(s: seq<ClientId>, me: ClientId, script: seq<RecvEvent>)
    requires Distinct(s)
    ensures forall c :: c in Relay(s, me, script) ==> c in s
    ensures me in Relay(s, me, script) <==> me in s
    ensures Distinct(Relay(s, me, script))
    decreases |script|
  {
    if script != [] && !Ends(script[0]) {
      var failing := script[0].failing;
      var f := Walk(s, Some(me), failing);
      WalkSurvivors(s, Some(me), failing);
      WalkMembers(s, Some(me), failing);
      MinusMembers(s, Closes(f.attempted, failing));
      RelayShrinks(f.survivors, me, script[1..]);
    }
  }

  /**
   * What a relay loop's broadcasts do, told from the books: every message
   * reached only listed clients other than the relaying one, only listed
   * clients other than it were closed, and a client was taken off the list
   * exactly when its socket was closed.
   */
  lemma {:induction false} RelayBooks(s: seq<ClientId>, me: ClientId, script: seq<RecvEvent>)
    requires Distinct(s)
    ensures forall p :: p in RelayLog(s, me, script) ==> p.0 in s && p.0 != me
    ensures forall c :: c in RelayCloses(s, me, script) ==> c in s && c != me
    ensures forall c :: c in Relay(s, me, script) <==> c in s && c !in RelayCloses(s, me, script)
    decreases |script|
  {
    if script != [] && !Ends(script[0]) {
      var failing := script[0].failing;
      var f := Walk(s, Some(me), failing);
      WalkSurvivors(s, Some(me), failing);
      WalkMembers(s, Some(me), failing);
      MinusMembers(s, Closes(f.attempted, failing));
      DeliveredMembers(f.attempted, failing, script[0].text);
      RelayBooks(f.survivors, me, script[1..]);
    }
  }

  /** One `accept()`: a new connection (with the sends that fail in the `start_game` broadcast that follows), or an exception. */
  datatype AcceptEvent = Connected(failing: set<ClientId>) | AcceptError

  /**
   * The clients listed after the accept loop has handled `events`: each new
   * connection is appended and the start message goes out through the
   * list-walking `broadcast`; an exception is reported and the loop goes on.
   * A socket that is not listening raises on every `accept`. Every client
   * listed at the end was listed at the start or accepted on the way.
   */
  function AfterAccepts(s: seq<ClientId>, next: nat, listening: bool, events: seq<AcceptEvent>): (r: seq<ClientId>)
    ensures forall c :: c in r ==> c in s || next <= c < next + |events|
    decreases |events|
  {
    if events == [] then s
    else if listening && events[0].Connected? then
      var f := Walk(s + [next], None, events[0].failing);
      WalkMembers(s + [next], None, events[0].failing);
      AfterAccepts(f.survivors, next + 1, listening, events[1..])
    else AfterAccepts(s, next, listening, events[1..])
  }

  /** Every successful `send` of the accept loop's `start_game` broadcasts, in order. */
  function AcceptLog(s: seq<ClientId>, next: nat, listening: bool, events: seq<AcceptEvent>): seq<(ClientId, string)>
    decreases |events|
  {
    if events == [] then []
    else if listening && events[0].Connected? then
      var f := Walk(s + [next], None, events[0].failing);
      Delivered(f.attempted, events[0].failing, StartMessage) + AcceptLog(f.survivors, next + 1, listening, events[1..])
    else AcceptLog(s, next, listening, events[1..])
  }

  /** The sockets the accept loop's `start_game` broadcasts close. */
  function AcceptCloses(s: seq<ClientId>, next: nat, listening: bool, events: seq<AcceptEvent>): set<ClientId>
    decreases |events|
  {
    if events == [] then {}
    else if listening && events[0].Connected? then
      var f := Walk(s + [next], None, events[0].failing);
      Closes(f.attempted, events[0].failing) + AcceptCloses(f.survivors, next + 1, listening, events[1..])
    else AcceptCloses(s, next, listening, events[1..])
  }

  /**
   * What the accept loop's start broadcasts do, told from the books: every
   * delivery is the start message to a client listed at the start or
   * accepted on the way, every closed socket is one of those too, and a
   * closed socket is never listed at the end.
   */
  lemma {:induction false} AcceptBooks(s: seq<ClientId>, next: nat, listening: bool, events: seq<AcceptEvent>)
    requires Distinct(s) && forall c :: c in s ==> c < next
    ensures forall p :: p in AcceptLog(s, next, listening, events) ==>
      p.1 == StartMessage && (p.0 in s || next <= p.0 < next + |events|)
    ensures forall c :: c in AcceptCloses(s, next, listening, events) ==>
      (c in s || next <= c < next + |events|) && c !in AfterAccepts(s, next, listening, events)
    decreases |events|
  {
    if events == [] {
    } else if listening && events[0].Connected? {
      var f := Walk(s + [next], None, events[0].failing);
      StartWalkFacts(s, next, events[0].failing);
      AcceptBooks(f.survivors, next + 1, listening, events[1..]);
    } else {
      AcceptBooks(s, next, listening, events[1..]);
    }
  }

  /**
   * The start broadcast after one connection: the list stays free of
   * duplicates and within the ids handed out, it delivers the start message
   * only to listed clients, and the sockets it closes are listed ones that
   * are no longer listed.
   */
  lemma StartWalkFacts(s: seq<ClientId>, next: nat, failing: set<ClientId>)
    requires Distinct(s) && forall c :: c in s ==> c < next
    ensures var f := Walk(s + [next], None, failing);
      && Distinct(f.survivors)
      && (forall c :: c in f.survivors ==> c in s || c == next)
      && (forall p :: p in Delivered(f.attempted, failing, StartMessage) ==> p.1 == StartMessage && (p.0 in s || p.0 == next))
      && (forall c :: c in Closes(f.attempted, failing) ==> (c in s || c == next) && c !in f.survivors)
  {
    var t := s + [next];
    var f := Walk(t, None, failing);
    AppendFresh(s, next);
    WalkSurvivors(t, None, failing);
    WalkMembers(t, None, failing);
    MinusMembers(t, Closes(f.attempted, failing));
    DeliveredMembers(f.attempted, failing, StartMessage);
  }

  /** A connection in the accept loop, on the pure side: the start broadcast, then the rest of the loop. */
  lemma AcceptFoldConnect(s: seq<ClientId>, next: nat, listening: bool, events: seq<AcceptEvent>, k: nat)
    requires k < |events| && listening && events[k].Connected?
    ensures var f := Walk(s + [next], None, events[k].failing);
      && AfterAccepts(s, next, listening, events[k..]) == AfterAccepts(f.survivors, next + 1, listening, events[k + 1..])
      && AcceptLog(s, next, listening, events[k..])
         == Delivered(f.attempted, events[k].failing, StartMessage) + AcceptLog(f.survivors, next + 1, listening, events[k + 1..])
      && AcceptCloses(s, next, listening, events[k..])
         == Closes(f.attempted, events[k].failing) + AcceptCloses(f.survivors, next + 1, listening, events[k + 1..])
  {
    assert events[k..][0] == events[k] && events[k..][1..] == events[k + 1..];
  }

  /** The books of the accept loop across a connection: the start broadcast's entries come first. */
  lemma AcceptBooksStep(s: seq<ClientId>, next: nat, listening: bool, events: seq<AcceptEvent>, k: nat,
                        outbox: seq<(ClientId, string)>, closed: set<ClientId>,
                        target: seq<ClientId>, log: seq<(ClientId, string)>, shut: set<ClientId>)
    requires k < |events| && listening && events[k].Connected?
    requires target == AfterAccepts(s, next, listening, events[k..])
    requires log == outbox + AcceptLog(s, next, listening, events[k..])
    requires shut == closed + AcceptCloses(s, next, listening, events[k..])
    ensures var f := Walk(s + [next], None, events[k].failing);
      && target == AfterAccepts(f.survivors, next + 1, listening, events[k + 1..])
      && log == (outbox + Delivered(f.attempted, events[k].failing, StartMessage)) + AcceptLog(f.survivors, next + 1, listening, events[k + 1..])
      && shut == (closed + Closes(f.attempted, events[k].failing)) + AcceptCloses(f.survivors, next + 1, listening, events[k + 1..])
  {
    AcceptFoldConnect(s, next, listening, events, k);
  }

  /** An accept that raises, or any accept on a socket not listening, on the pure side: nothing happens. */
  lemma AcceptFoldSkip(s: seq<ClientId>, next: nat, listening: bool, events: seq<AcceptEvent>, k: nat)
    requires k < |events| && !(listening && events[k].Connected?)
    ensures AfterAccepts(s, next, listening, events[k..]) == AfterAccepts(s, next, listening, events[k + 1..])
    ensures AcceptLog(s, next, listening, events[k..]) == AcceptLog(s, next, listening, events[k + 1..])
    ensures AcceptCloses(s, next, listening, events[k..]) == AcceptCloses(s, next, listening, events[k + 1..])
  {
    assert events[k..][0] == events[k] && events[k..][1..] == events[k + 1..];
  }

  /** How many of `events` are new connections: all of them when none raises, none when all do. */
  function Connections(events: seq<AcceptEvent>): (n: nat)
    ensures n <= |events|
    ensures (forall j :: 0 <= j < |events| ==> events[j].Connected?) ==> n == |events|
    ensures (forall j :: 0 <= j < |events| ==> events[j].AcceptError?) ==> n == 0
  {
    if events == [] then 0
    else (if events[0].Connected? then 1 else 0) + Connections(events[1..])
  }

  /**
   * After `stop_server` the listening socket is closed, every `accept`
   * raises, and the loop keeps going without ever changing the list,
   * sending anything or closing any socket.
   */
  lemma {:induction false} AcceptAfterStopChangesNothing(s: seq<ClientId>, next: nat, events: seq<AcceptEvent>)
    ensures AfterAccepts(s, next, false, events) == s
    ensures AcceptLog(s, next, false, events) == [] && AcceptCloses(s, next, false, events) == {}
    decreases |events|
  {
    if events != [] {
      AcceptAfterStopChangesNothing(s, next, events[1..]);
    }
  }

  class Serveur {
    const host: string
    const port: int
    /** The connected clients, in the order they were accepted. */
    var clients: seq<ClientId>
    /** The id the next accepted socket gets. */
    var nextId: nat
    /** The sockets `close` has been called on. */
    var closed: set<ClientId>
    /** The server socket is listening. */
    var listening: bool
    /** Every successful `send`, in order. */
    var outbox: seq<(ClientId, string)>

    /** No socket is listed twice, and every listed socket was accepted. */
    ghost predicate Valid()
      reads this
    {
      Distinct(clients) && forall c :: c in clients ==> c < nextId
    }

    /** `Serveur(host, port)`: no clients yet; the socket is bound, not listening. */
    constructor(host: string, port: int)
      ensures this.host == host && this.port == port
      ensures clients == [] && closed == {} && outbox == [] && !listening
      ensures Valid()
    {
      this.host := host;
      this.port := port;
      clients := [];
      nextId := 0;
      closed := {};
      listening := false;
      outbox := [];
    }

    /** `start_server`: listen; the accept thread is `AcceptClients`. */
    method StartServer()
      modifies this
      ensures listening
      ensures clients == old(clients) && nextId == old(nextId) && closed == old(closed) && outbox == old(outbox)
    {
      listening := true;
    }

    /**
     * The body of `broadcast`'s loop for one client other than the sender:
     * `send`; when it raises and the client is still listed, close its
     * socket and remove it. The walk only ever stands on a listed client.
     */
    method SendOrDrop(c: ClientId, message: string, failing: set<ClientId>,
                      ghost sent: seq<ClientId>, ghost closed0: set<ClientId>, ghost outbox0: seq<(ClientId, string)>)
      requires Valid() && c in clients
      requires closed == closed0 + Closes(sent, failing)
      requires outbox == outbox0 + Delivered(sent, failing, message)
      modifies this
      ensures Valid()
      ensures clients == if c in failing then Deregister(old(clients), c) else old(clients)
      ensures closed == closed0 + Closes(sent + [c], failing)
      ensures outbox == outbox0 + Delivered(sent + [c], failing, message)
      ensures nextId == old(nextId) && listening == old(listening)
    {
      LogStep(closed, outbox, closed0, outbox0, sent, c, failing, message);
      if c !in failing {
        outbox := outbox + [(c, message)];
      } else if c in clients {
        closed := closed + {c};
        DeregisterKeepsValid(clients, c, nextId);
        clients := Remove(clients, c);
      }
    }

    /**
     * `broadcast` corrected to walk a copy of the list (`self.clients[:]`):
     * every client but the sender is sent the message, those whose send
     * fails are closed and removed, and the others stay in their order.
     */
    method BroadcastOverCopy(message: string, sender: Option<ClientId>, failing: set<ClientId>) returns (attempted: seq<ClientId>)
      requires Valid()
      modifies this
      ensures Valid()
      ensures attempted == Snapshot(old(clients), sender, failing).attempted
      ensures clients == Snapshot(old(clients), sender, failing).survivors
      ensures closed == old(closed) + Closes(attempted, failing)
      ensures outbox == old(outbox) + Delivered(attempted, failing, message)
      ensures nextId == old(nextId) && listening == old(listening)
    {
      var snapshot := clients;
      ghost var x := failing - Sender(sender);
      attempted := [];
      for k := 0 to |snapshot|
        invariant Valid() && nextId == old(nextId) && listening == old(listening)
        invariant clients == Minus(snapshot[..k], x) + snapshot[k..]
        invariant attempted == Minus(snapshot[..k], Sender(sender))
        invariant closed == old(closed) + Closes(attempted, failing)
        invariant outbox == old(outbox) + Delivered(attempted, failing, message)
      {
        attempted := CopyVisit(snapshot, k, message, sender, failing, attempted, old(closed), old(outbox));
      }
      assert snapshot[..|snapshot|] == snapshot;
    }

    /** One turn of the corrected broadcast, on position `k` of the copy. */
    method CopyVisit(snapshot: seq<ClientId>, k: nat, message: string, sender: Option<ClientId>, failing: set<ClientId>,
                     attempted: seq<ClientId>, ghost closed0: set<ClientId>, ghost outbox0: seq<(ClientId, string)>)
      returns (attempted': seq<ClientId>)
      requires Valid() && k < |snapshot| && Distinct(snapshot)
      requires clients == Minus(snapshot[..k], failing - Sender(sender)) + snapshot[k..]
      requires attempted == Minus(snapshot[..k], Sender(sender))
      requires closed == closed0 + Closes(attempted, failing)
      requires outbox == outbox0 + Delivered(attempted, failing, message)
      modifies this
      ensures Valid() && nextId == old(nextId) && listening == old(listening)
      ensures clients == Minus(snapshot[..k + 1], failing - Sender(sender)) + snapshot[k + 1..]
      ensures attempted' == Minus(snapshot[..k + 1], Sender(sender))
      ensures closed == closed0 + Closes(attempted', failing)
      ensures outbox == outbox0 + Delivered(attempted', failing, message)
    {
      var c := snapshot[k];
      ghost var x := failing - Sender(sender);
      SnapshotStep(snapshot, k, x);
      MinusPrefixStep(snapshot, k, Sender(sender));
      if Targets(c, sender) {
        assert clients[|Minus(snapshot[..k], x)|] == c;
        SendOrDrop(c, message, failing, attempted, closed0, outbox0);
        attempted' := attempted + [c];
      } else {
        attempted' := attempted;
      }
    }

    /**
     * `broadcast`: `for client in self.clients` walks the live list by
     * position, so removing a failed client makes the loop pass over the
     * client behind it (see `Registry.Walk`).
     */
    method Broadcast(message: string, sender: Option<ClientId>, failing: set<ClientId>) returns (attempted: seq<ClientId>)
      requires Valid()
      modifies this
      ensures Valid()
      ensures attempted == Walk(old(clients), sender, failing).attempted
      ensures clients == Walk(old(clients), sender, failing).survivors
      ensures closed == old(closed) + Closes(attempted, failing)
      ensures outbox == old(outbox) + Delivered(attempted, failing, message)
      ensures nextId == old(nextId) && listening == old(listening)
    {
      ghost var w := Walk(clients, sender, failing);
      attempted := [];
      var i := 0;
      WalkLoopEntry(clients, sender, failing);
      while i < |clients|
        invariant i <= |clients| + 1
        invariant Valid() && nextId == old(nextId) && listening == old(listening)
        invariant WalkAt(w, clients, i, attempted, sender, failing)
        invariant closed == old(closed) + Closes(attempted, failing)
        invariant outbox == old(outbox) + Delivered(attempted, failing, message)
        decreases |clients| + 1 - i
      {
        attempted := Visit(i, message, sender, failing, attempted, w, old(closed), old(outbox));
        i := i + 1;
      }
      WalkLoopExit(w, clients, i, attempted, sender, failing);
    }

    /**
     * One turn of `broadcast`'s loop, on the client at index `i`: sent to
     * unless it is the sender, dropped if its send fails. The iterator then
     * moves on by one, whatever happened to the list.
     */
    method Visit(i: nat, message: string, sender: Option<ClientId>, failing: set<ClientId>, attempted: seq<ClientId>,
                 ghost w: Fan, ghost closed0: set<ClientId>, ghost outbox0: seq<(ClientId, string)>)
      returns (attempted': seq<ClientId>)
      requires Valid() && i < |clients|
      requires WalkAt(w, clients, i, attempted, sender, failing)
      requires closed == closed0 + Closes(attempted, failing)
      requires outbox == outbox0 + Delivered(attempted, failing, message)
      modifies this
      ensures Valid() && i + 1 <= |clients| + 1 && |clients| <= old(|clients|)
      ensures WalkAt(w, clients, i + 1, attempted', sender, failing)
      ensures closed == closed0 + Closes(attempted', failing)
      ensures outbox == outbox0 + Delivered(attempted', failing, message)
      ensures nextId == old(nextId) && listening == old(listening)
    {
      var c := clients[i];
      assert Done(clients, i) == clients[..i] && Ahead(clients, i) == clients[i..];
      WalkLoopStep(clients, i, sender, failing, attempted);
      if Targets(c, sender) {
        SendOrDrop(c, message, failing, attempted, closed0, outbox0);
        attempted' := attempted + [c];
      } else {
        attempted' := attempted;
        assert attempted + [] == attempted;
      }
    }

    /**
     * `start_game`: the start message, broadcast with no sender. When no
     * send fails it reaches every client; a failing send makes the walk pass
     * over the client behind it.
     */
    method StartGame(failing: set<ClientId>) returns (attempted: seq<ClientId>)
      requires Valid()
      modifies this
      ensures Valid()
      ensures attempted == Walk(old(clients), None, failing).attempted
      ensures clients == Walk(old(clients), None, failing).survivors
      ensures closed == old(closed) + Closes(attempted, failing)
      ensures outbox == old(outbox) + Delivered(attempted, failing, StartMessage)
      ensures nextId == old(nextId) && listening == old(listening)
    {
      attempted := Broadcast(StartMessage, None, failing);
    }

    /**
     * `accept_clients`, one iteration per event: a new connection is listed
     * and the game start is announced; an exception is reported and the
     * loop carries on.
     */
    method AcceptClients(events: seq<AcceptEvent>) returns (accepted: seq<ClientId>)
      requires Valid()
      modifies this
      ensures Valid()
      ensures clients == AfterAccepts(old(clients), old(nextId), listening, events)
      ensures outbox == old(outbox) + AcceptLog(old(clients), old(nextId), listening, events)
      ensures closed == old(closed) + AcceptCloses(old(clients), old(nextId), listening, events)
      ensures |accepted| == (if listening then Connections(events) else 0)
      ensures forall j :: 0 <= j < |accepted| ==> accepted[j] == old(nextId) + j
      ensures nextId == old(nextId) + |accepted|
      ensures listening == old(listening)
    {
      accepted := [];
      ghost var target := AfterAccepts(clients, nextId, listening, events);
      ghost var log := outbox + AcceptLog(clients, nextId, listening, events);
      ghost var shut := closed + AcceptCloses(clients, nextId, listening, events);
      assert events[0..] == events;
      for k := 0 to |events|
        invariant Valid()
        invariant listening == old(listening)
        invariant target == AfterAccepts(clients, nextId, listening, events[k..])
        invariant log == outbox + AcceptLog(clients, nextId, listening, events[k..])
        invariant shut == closed + AcceptCloses(clients, nextId, listening, events[k..])
        invariant |accepted| == (if listening then Connections(events[..k]) else 0)
        invariant forall j :: 0 <= j < |accepted| ==> accepted[j] == old(nextId) + j
        invariant nextId == old(nextId) + |accepted|
      {
        AcceptStep(events, k, listening);
        var id := AcceptTurn(events, k, target, log, shut);
        if id.Some? {
          accepted := accepted + [id.value];
        }
      }
      assert events[..|events|] == events;
      assert outbox + [] == outbox && closed + {} == closed;
    }

    /** One pass of the accept loop: the list and the books of the rest of the loop are those of the whole. */
    method AcceptTurn(events: seq<AcceptEvent>, k: nat, ghost target: seq<ClientId>,
                      ghost log: seq<(ClientId, string)>, ghost shut: set<ClientId>) returns (id: Option<ClientId>)
      requires Valid() && k < |events|
      requires target == AfterAccepts(clients, nextId, listening, events[k..])
      requires log == outbox + AcceptLog(clients, nextId, listening, events[k..])
      requires shut == closed + AcceptCloses(clients, nextId, listening, events[k..])
      modifies this
      ensures Valid() && listening == old(listening)
      ensures id == (if listening && events[k].Connected? then Some(old(nextId)) else None)
      ensures nextId == old(nextId) + (if id.Some? then 1 else 0)
      ensures target == AfterAccepts(clients, nextId, listening, events[k + 1..])
      ensures log == outbox + AcceptLog(clients, nextId, listening, events[k + 1..])
      ensures shut == closed + AcceptCloses(clients, nextId, listening, events[k + 1..])
    {
      if listening && events[k].Connected? {
        id := ConnectTurn(events, k, target, log, shut);
      } else {
        AcceptFoldSkip(clients, nextId, listening, events, k);
        id := AcceptOne(events[k]);
      }
    }

    /** The pass of the accept loop that takes a connection. */
    method ConnectTurn(events: seq<AcceptEvent>, k: nat, ghost target: seq<ClientId>,
                       ghost log: seq<(ClientId, string)>, ghost shut: set<ClientId>) returns (id: Option<ClientId>)
      requires Valid() && k < |events| && listening && events[k].Connected?
      requires target == AfterAccepts(clients, nextId, listening, events[k..])
      requires log == outbox + AcceptLog(clients, nextId, listening, events[k..])
      requires shut == closed + AcceptCloses(clients, nextId, listening, events[k..])
      modifies this
      ensures Valid() && listening
      ensures id == Some(old(nextId)) && nextId == old(nextId) + 1
      ensures target == AfterAccepts(clients, nextId, listening, events[k + 1..])
      ensures log == outbox + AcceptLog(clients, nextId, listening, events[k + 1..])
      ensures shut == closed + AcceptCloses(clients, nextId, listening, events[k + 1..])
    {
      AcceptBooksStep(clients, nextId, listening, events, k, outbox, closed, target, log, shut);
      id := AcceptOne(events[k]);
    }

    method AcceptOne(e: AcceptEvent) returns (id: Option<ClientId>)
      requires Valid()
      modifies this
      ensures Valid()
      ensures listening == old(listening)
      ensures id == (if listening && e.Connected? then Some(old(nextId)) else None)
      ensures clients == (if id.Some? then Walk(old(clients) + [old(nextId)], None, e.failing).survivors else old(clients))
      ensures id.None? ==> outbox == old(outbox) && closed == old(closed)
      ensures id.Some? ==>
        var w := Walk(old(clients) + [old(nextId)], None, e.failing);
        && outbox == old(outbox) + Delivered(w.attempted, e.failing, StartMessage)
        && closed == old(closed) + Closes(w.attempted, e.failing)
      ensures nextId == old(nextId) + (if id.Some? then 1 else 0)
    {
      id := None;
      if listening && e.Connected? {
        id := Some(nextId);
        AppendFresh(clients, nextId);
        clients := clients + [nextId];
        nextId := nextId + 1;
        var _ := StartGame(e.failing);
      }
    }

    /**
     * `handle_client`: relay every message to the other clients until the
     * peer closes or `recv` raises, then close the socket and take it off
     * the list if it is still there.
     */
    method HandleClient(me: ClientId, script: seq<RecvEvent>)
      requires Valid()
      modifies this
      ensures Valid()
      ensures clients == Deregister(Relay(old(clients), me, script), me)
      ensures outbox == old(outbox) + RelayLog(old(clients), me, script)
      ensures closed == old(closed) + RelayCloses(old(clients), me, script) + {me}
      ensures me !in clients && forall c :: c in clients ==> c in old(clients)
      ensures nextId == old(nextId) && listening == old(listening)
    {
      RelayShrinks(clients, me, script);
      RelayAll(me, script);
      closed := closed + {me};
      DeregisterKeepsValid(clients, me, nextId);
      if me in clients {
        RemoveFacts(clients, me);
        clients := Remove(clients, me);
      }
    }

    /** The `while True` loop of `handle_client`: one broadcast per message received, until the loop breaks. */
    method RelayAll(me: ClientId, script: seq<RecvEvent>)
      requires Valid()
      modifies this
      ensures Valid()
      ensures clients == Relay(old(clients), me, script)
      ensures outbox == old(outbox) + RelayLog(old(clients), me, script)
      ensures closed == old(closed) + RelayCloses(old(clients), me, script)
      ensures nextId == old(nextId) && listening == old(listening)
    {
      var k := 0;
      while k < |script| && !Ends(script[k])
        invariant k <= |script|
        invariant Valid()
        invariant Relay(old(clients), me, script) == Relay(clients, me, script[k..])
        invariant old(outbox) + RelayLog(old(clients), me, script) == outbox + RelayLog(clients, me, script[k..])
        invariant old(closed) + RelayCloses(old(clients), me, script) == closed + RelayCloses(clients, me, script[k..])
        invariant nextId == old(nextId) && listening == old(listening)
        decreases |script| - k
      {
        RelayTurn(clients, me, script, k, outbox);
        var _ := Broadcast(script[k].text, Some(me), script[k].failing);
        k := k + 1;
      }
      assert RelayLog(clients, me, script[k..]) == [] && RelayCloses(clients, me, script[k..]) == {};
    }

    /** `stop_server`: close every client and the listening socket; the list itself is left as it is. */
    method StopServer()
      modifies this
      ensures !listening
      ensures closed == old(closed) + (set c | c in clients)
      ensures clients == old(clients) && nextId == old(nextId) && outbox == old(outbox)
    {
      for k := 0 to |clients|
        invariant clients == old(clients) && nextId == old(nextId) && outbox == old(outbox)
        invariant closed == old(closed) + (set c | c in clients[..k])
      {
        assert clients[..k + 1] == clients[..k] + [clients[k]];
        closed := closed + {clients[k]};
      }
      assert clients[..|clients|] == clients;
      listening := false;
    }
  }

  /** One message of a relay loop, on the pure side: the broadcast it makes, then the relay of the rest. */
  lemma RelayTurn(s: seq<ClientId>, me: ClientId, script: seq<RecvEvent>, k: nat, outbox: seq<(ClientId, string)>)
    requires k < |script| && !Ends(script[k])
    ensures var f := Walk(s, Some(me), script[k].failing);
      && Relay(s, me, script[k..]) == Relay(f.survivors, me, script[k + 1..])
      && outbox + RelayLog(s, me, script[k..])
         == (outbox + Delivered(f.attempted, script[k].failing, script[k].text)) + RelayLog(f.survivors, me, script[k + 1..])
      && RelayCloses(s, me, script[k..]) == Closes(f.attempted, script[k].failing) + RelayCloses(f.survivors, me, script[k + 1..])
  {
    assert script[k..][0] == script[k] && script[k..][1..] == script[k + 1..];
  }

  /** One event of the accept loop, on the pure side: how the remaining run and the count move on. */
  lemma AcceptStep(events: seq<AcceptEvent>, k: nat, listening: bool)
    requires k < |events|
    ensures events[k..][0] == events[k] && events[k..][1..] == events[k + 1..]
    ensures Connections(events[..k + 1]) == Connections(events[..k]) + (if events[k].Connected? then 1 else 0)
  {
    assert events[..k + 1] == events[..k] + [events[k]];
    ConnectionsAppend(events[..k], events[k]);
  }

  lemma {:induction false} ConnectionsAppend(events: seq<AcceptEvent>, e: AcceptEvent)
    ensures Connections(events + [e]) == Connections(events) + (if e.Connected? then 1 else 0)
    decreases |events|
  {
    if events != [] {
      assert (events + [e])[1..] == events[1..] + [e];
      ConnectionsAppend(events[1..], e);
    }
  }
}
