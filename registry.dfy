/**
 * The server's connection registry as values: the `clients` list of
 * connected sockets (here client ids), Python's `list.remove`, the guarded and
 * the unguarded deregistration of the two server revisions, and what one
 * `broadcast` call does to the list. Whether a `send` raises is given as the
 * set `failing` of clients whose send fails during that call.
 */
module Registry {
  import opened Wrappers

  type ClientId = nat

  /** Every accepted socket is a new object, so no client is listed twice. */
  predicate Distinct(s: seq<ClientId>) {
    forall i, j :: 0 <= i < j < |s| ==> s[i] != s[j]
  }

  /** The clients of `s` not in `x`, in their order. */
  function Minus(s: seq<ClientId>, x: set<ClientId>): (r: seq<ClientId>)
    ensures |r| <= |s|
  {
    if s == [] then []
    else if s[0] in x then Minus(s[1..], x)
    else [s[0]] + Minus(s[1..], x)
  }

  /** `Minus` keeps exactly the clients outside `x`, and lists none twice if `s` did not. */
  lemma {:induction false} MinusMembers(s: seq<ClientId>, x: set<ClientId>)
    ensures forall c :: c in Minus(s, x) <==> c in s && c !in x
    ensures Distinct(s) ==> Distinct(Minus(s, x))
    decreases |s|
  {
    if s != [] {
      MinusMembers(s[1..], x);
    }
  }

  lemma {:induction false} MinusAppend(s: seq<ClientId>, c: ClientId, x: set<ClientId>)
    ensures Minus(s + [c], x) == Minus(s, x) + (if c in x then [] else [c])
    decreases |s|
  {
    if s != [] {
      assert (s + [c])[1..] == s[1..] + [c];
      MinusAppend(s[1..], c, x);
    }
  }

  /** Only the clients of `s` matter: two sets that agree on them take out the same clients. */
  lemma {:induction false} MinusCongruent(s: seq<ClientId>, x: set<ClientId>, y: set<ClientId>)
    requires forall c :: c in s ==> (c in x <==> c in y)
    ensures Minus(s, x) == Minus(s, y)
    decreases |s|
  {
    if s != [] {
      MinusCongruent(s[1..], x, y);
    }
  }

  /** Taking out clients that are not listed changes nothing. */
  lemma {:induction false} MinusNone(s: seq<ClientId>, x: set<ClientId>)
    requires forall c :: c in s ==> c !in x
    ensures Minus(s, x) == s
    decreases |s|
  {
    if s != [] {
      MinusNone(s[1..], x);
    }
  }

  /** Where `list.remove` finds `c`: its first occurrence. */
  function IndexOf(s: seq<ClientId>, c: ClientId): (k: nat)
    requires c in s
    ensures k < |s| && s[k] == c && c !in s[..k]
  {
    if s[0] == c then 0
    else
      var k := IndexOf(s[1..], c);
      assert s[..k + 1] == [s[0]] + s[1..][..k];
      k + 1
  }

  lemma IndexOfDistinct(s: seq<ClientId>, i: nat)
    requires Distinct(s) && i < |s|
    ensures IndexOf(s, s[i]) == i
  {
    var k := IndexOf(s, s[i]);
  }

  /**
   * `list.remove(c)` on a list that holds `c`: the first occurrence goes,
   * the rest keep their order. Removing from a list that does not hold it
   * raises, which is `UnguardedRemove` below.
   */
  function Remove(s: seq<ClientId>, c: ClientId): (r: seq<ClientId>)
    requires c in s
    ensures |r| == |s| - 1
    ensures multiset(r) == multiset(s) - multiset{c}
  {
    var k := IndexOf(s, c);
    assert s == s[..k] + [c] + s[k + 1..];
    s[..k] + s[k + 1..]
  }

  /** `remove` keeps a list free of duplicates, and then `c` is gone from it. */
  lemma RemoveFacts(s: seq<ClientId>, c: ClientId)
    requires c in s
    ensures forall x :: x in Remove(s, c) ==> x in s
    ensures Distinct(s) ==> Distinct(Remove(s, c)) && c !in Remove(s, c)
  {
    var k := IndexOf(s, c);
    assert s == s[..k] + [c] + s[k + 1..];
    DropAtKeepsDistinct(s, k);
  }

  /** Deregistering keeps the registry free of duplicates and within the ids handed out. */
  lemma DeregisterKeepsValid(s: seq<ClientId>, c: ClientId, next: nat)
    requires Distinct(s) && forall x :: x in s ==> x < next
    ensures Distinct(Deregister(s, c)) && forall x :: x in Deregister(s, c) ==> x < next
    ensures c !in Deregister(s, c)
  {
    if c in s {
      RemoveFacts(s, c);
    }
  }

  lemma DropAtKeepsDistinct(s: seq<ClientId>, k: nat)
    requires k < |s|
    ensures Distinct(s) ==> Distinct(s[..k] + s[k + 1..]) && s[k] !in s[..k] + s[k + 1..]
  {
    var r := s[..k] + s[k + 1..];
    if Distinct(s) {
      forall i, j | 0 <= i < j < |r| ensures r[i] != r[j] {
        var i', j' := if i < k then i else i + 1, if j < k then j else j + 1;
        assert r[i] == s[i'] && r[j] == s[j'];
      }
      forall i | 0 <= i < |r| ensures r[i] != s[k] {
        var i' := if i < k then i else i + 1;
        assert r[i] == s[i'] && i' != k;
      }
    }
  }

  /** In a list without duplicates, removing `c` takes out exactly its one slot. */
  lemma RemoveAt(pre: seq<ClientId>, c: ClientId, post: seq<ClientId>)
    requires Distinct(pre + [c] + post)
    ensures Remove(pre + [c] + post, c) == pre + post
  {
    var s := pre + [c] + post;
    IndexOfDistinct(s, |pre|);
    assert s[..|pre|] == pre && s[|pre| + 1..] == post;
  }

  /** In a list without duplicates, deregistering the client at `i` takes out slot `i`. */
  lemma DeregisterAt(s: seq<ClientId>, i: nat)
    requires i < |s| && Distinct(s)
    ensures Deregister(s, s[i]) == s[..i] + s[i + 1..]
  {
    assert s == s[..i] + [s[i]] + s[i + 1..];
    RemoveAt(s[..i], s[i], s[i + 1..]);
  }

  lemma DistinctConcat(a: seq<ClientId>, b: seq<ClientId>)
    requires Distinct(a) && Distinct(b) && forall c :: c in a ==> c !in b
    ensures Distinct(a + b)
  {
    var s := a + b;
    forall i, j | 0 <= i < j < |s| ensures s[i] != s[j] {
      if j < |a| {
      } else if i >= |a| {
        assert s[i] == b[i - |a|] && s[j] == b[j - |a|];
      } else {
        assert s[i] in a && s[j] == b[j - |a|];
      }
    }
  }

  /** Appending a client not yet listed keeps the list free of duplicates. */
  lemma AppendFresh(s: seq<ClientId>, c: ClientId)
    requires Distinct(s) && c !in s
    ensures Distinct(s + [c])
  {
  }

  /**
   * Cleanup in the hosted revision: `if c in clients: clients.remove(c)`.
   * It never raises, the client is gone afterwards, and doing it twice is
   * the same as doing it once.
   */
  function Deregister(s: seq<ClientId>, c: ClientId): (r: seq<ClientId>)
    ensures c !in s ==> r == s
    ensures c in s ==> r == Remove(s, c)
  {
    if c in s then Remove(s, c) else s
  }

  lemma DeregisterIdempotent(s: seq<ClientId>, c: ClientId)
    requires Distinct(s)
    ensures c !in Deregister(s, c)
    ensures Deregister(Deregister(s, c), c) == Deregister(s, c)
    ensures Distinct(Deregister(s, c))
  {
    if c in s {
      RemoveFacts(s, c);
    }
  }

  /** Cleanup in the older revision: `clients.remove(c)` with no check; `None` is the ValueError. */
  function UnguardedRemove(s: seq<ClientId>, c: ClientId): (r: Option<seq<ClientId>>)
    ensures r.None? <==> c !in s
    ensures r.Some? ==> r.value == Deregister(s, c)
  {
    if c in s then Some(Remove(s, c)) else None
  }

  /** The outcome of one broadcast: the clients left listed, and the clients `send` was called on, in order. */
  datatype Fan = Fan(survivors: seq<ClientId>, attempted: seq<ClientId>)

  /** The sender as a set: empty for `None`, which excludes nobody. */
  function Sender(sender: Option<ClientId>): (x: set<ClientId>)
    ensures forall c :: c in x <==> sender == Some(c)
  {
    if sender.Some? then {sender.value} else {}
  }

  /** `client != sender_socket`. */
  predicate Targets(c: ClientId, sender: Option<ClientId>) {
    sender != Some(c)
  }

  /** The client is sent to and its send raises, so it is closed and removed. */
  predicate Drops(c: ClientId, sender: Option<ClientId>, failing: set<ClientId>) {
    Targets(c, sender) && c in failing
  }

  /**
   * `for client in self.clients` as written, from the iterator's position
   * onward: Python's list iterator walks by index, so when the current client
   * is removed the next one slides into its slot and is passed over.
   */
  function Walk(rest: seq<ClientId>, sender: Option<ClientId>, failing: set<ClientId>): (f: Fan)
    ensures |f.survivors| <= |rest| && |f.attempted| <= |rest|
    decreases |rest|
  {
    if rest == [] then Fan([], [])
    else if !Drops(rest[0], sender, failing) then
      var f := Walk(rest[1..], sender, failing);
      Fan([rest[0]] + f.survivors, (if Targets(rest[0], sender) then [rest[0]] else []) + f.attempted)
    else if |rest| == 1 then Fan([], [rest[0]])
    else
      var f := Walk(rest[2..], sender, failing);
      Fan([rest[1]] + f.survivors, [rest[0]] + f.attempted)
  }

  /** The walk only sends to clients it was given, never to the sender, and only keeps clients it was given. */
  lemma {:induction false} WalkMembers(rest: seq<ClientId>, sender: Option<ClientId>, failing: set<ClientId>)
    ensures forall c :: c in Walk(rest, sender, failing).attempted ==> c in rest && Targets(c, sender)
    ensures forall c :: c in Walk(rest, sender, failing).survivors ==> c in rest
    decreases |rest|
  {
    if rest == [] {
    } else if !Drops(rest[0], sender, failing) {
      WalkMembers(rest[1..], sender, failing);
    } else if |rest| >= 2 {
      WalkMembers(rest[2..], sender, failing);
    }
  }

  /** Nobody is lost on the way: every client is either sent to or still listed, a client passed over included. */
  lemma {:induction false} WalkKeepsOrSends(rest: seq<ClientId>, sender: Option<ClientId>, failing: set<ClientId>)
    ensures forall c :: c in rest ==> c in Walk(rest, sender, failing).survivors || c in Walk(rest, sender, failing).attempted
    decreases |rest|
  {
    if rest == [] {
    } else if !Drops(rest[0], sender, failing) {
      WalkKeepsOrSends(rest[1..], sender, failing);
    } else if |rest| >= 2 {
      WalkKeepsOrSends(rest[2..], sender, failing);
    }
  }

  /** One step of the walk, written out. */
  lemma WalkStep(rest: seq<ClientId>, sender: Option<ClientId>, failing: set<ClientId>)
    requires rest != []
    ensures !Drops(rest[0], sender, failing) ==>
      (var f := Walk(rest[1..], sender, failing);
       Walk(rest, sender, failing) == Fan([rest[0]] + f.survivors, (if Targets(rest[0], sender) then [rest[0]] else []) + f.attempted))
    ensures Drops(rest[0], sender, failing) && |rest| == 1 ==> Walk(rest, sender, failing) == Fan([], [rest[0]])
    ensures Drops(rest[0], sender, failing) && |rest| >= 2 ==>
      (var f := Walk(rest[2..], sender, failing);
       Walk(rest, sender, failing) == Fan([rest[1]] + f.survivors, [rest[0]] + f.attempted))
  {
  }

  /** The log entries of one broadcast: the attempted clients whose send went through, with the message. */
  function Delivered(attempted: seq<ClientId>, failing: set<ClientId>, message: string): (r: seq<(ClientId, string)>)
    ensures |r| <= |attempted|
    decreases |attempted|
  {
    if attempted == [] then []
    else
      var c := attempted[|attempted| - 1];
      Delivered(attempted[..|attempted| - 1], failing, message) + (if c in failing then [] else [(c, message)])
  }

  /** A broadcast logs only clients it sent to and whose send went through, each with the message. */
  lemma {:induction false} DeliveredMembers(attempted: seq<ClientId>, failing: set<ClientId>, message: string)
    ensures forall p :: p in Delivered(attempted, failing, message) ==> p.0 in attempted && p.0 !in failing && p.1 == message
    decreases |attempted|
  {
    if attempted != [] {
      var init := attempted[..|attempted| - 1];
      DeliveredMembers(init, failing, message);
      assert forall c :: c in init ==> c in attempted;
    }
  }

  /** The sockets one broadcast closes: the attempted clients whose send raised. */
  function Closes(attempted: seq<ClientId>, failing: set<ClientId>): (r: set<ClientId>)
    ensures forall c :: c in r <==> c in attempted && c in failing
    decreases |attempted|
  {
    if attempted == [] then {}
    else
      var c := attempted[|attempted| - 1];
      assert attempted == attempted[..|attempted| - 1] + [c];
      Closes(attempted[..|attempted| - 1], failing) + (if c in failing then {c} else {})
  }

  lemma BroadcastStep(attempted: seq<ClientId>, c: ClientId, failing: set<ClientId>, message: string)
    ensures Delivered(attempted + [c], failing, message)
         == Delivered(attempted, failing, message) + (if c in failing then [] else [(c, message)])
    ensures Closes(attempted + [c], failing) == Closes(attempted, failing) + (if c in failing then {c} else {})
  {
    assert (attempted + [c])[..|attempted|] == attempted;
  }

  /** Closing or logging one more visited client keeps the books of a broadcast. */
  lemma LogStep(closed: set<ClientId>, outbox: seq<(ClientId, string)>, closed0: set<ClientId>, outbox0: seq<(ClientId, string)>,
                sent: seq<ClientId>, c: ClientId, failing: set<ClientId>, message: string)
    requires closed == closed0 + Closes(sent, failing)
    requires outbox == outbox0 + Delivered(sent, failing, message)
    ensures (if c in failing then closed + {c} else closed) == closed0 + Closes(sent + [c], failing)
    ensures (if c in failing then outbox else outbox + [(c, message)]) == outbox0 + Delivered(sent + [c], failing, message)
  {
    BroadcastStep(sent, c, failing, message);
    if c in failing {
      assert Delivered(sent + [c], failing, message) == Delivered(sent, failing, message) + [];
    } else {
      assert Closes(sent + [c], failing) == Closes(sent, failing) + {};
      assert outbox0 + Delivered(sent + [c], failing, message) == (outbox0 + Delivered(sent, failing, message)) + [(c, message)];
    }
  }

  /**
   * The clients left after the walk are the list with exactly the clients it
   * closed taken out, in their original order.
   */
  lemma {:induction false} WalkSurvivors(rest: seq<ClientId>, sender: Option<ClientId>, failing: set<ClientId>)
    requires Distinct(rest)
    ensures var f := Walk(rest, sender, failing);
      f.survivors == Minus(rest, Closes(f.attempted, failing))
    decreases |rest|
  {
    if rest == [] {
    } else if !Drops(rest[0], sender, failing) {
      WalkSurvivors(rest[1..], sender, failing);
      WalkSurvivorsKeep(rest, sender, failing);
    } else if |rest| == 1 {
    } else {
      WalkSurvivors(rest[2..], sender, failing);
      WalkSurvivorsSkip(rest, sender, failing);
    }
  }

  lemma WalkSurvivorsKeep(rest: seq<ClientId>, sender: Option<ClientId>, failing: set<ClientId>)
    requires rest != [] && Distinct(rest) && !Drops(rest[0], sender, failing)
    requires var g := Walk(rest[1..], sender, failing); g.survivors == Minus(rest[1..], Closes(g.attempted, failing))
    ensures var f := Walk(rest, sender, failing); f.survivors == Minus(rest, Closes(f.attempted, failing))
  {
    var f := Walk(rest, sender, failing);
    var g := Walk(rest[1..], sender, failing);
    WalkMembers(rest[1..], sender, failing);
    MinusCongruent(rest[1..], Closes(f.attempted, failing), Closes(g.attempted, failing));
  }

  lemma WalkSurvivorsSkip(rest: seq<ClientId>, sender: Option<ClientId>, failing: set<ClientId>)
    requires |rest| >= 2 && Distinct(rest) && Drops(rest[0], sender, failing)
    requires var g := Walk(rest[2..], sender, failing); g.survivors == Minus(rest[2..], Closes(g.attempted, failing))
    ensures var f := Walk(rest, sender, failing); f.survivors == Minus(rest, Closes(f.attempted, failing))
  {
    var f := Walk(rest, sender, failing);
    var g := Walk(rest[2..], sender, failing);
    WalkMembers(rest[2..], sender, failing);
    MinusCongruent(rest[2..], Closes(f.attempted, failing), Closes(g.attempted, failing));
    assert rest[1] !in g.attempted;
    assert rest[1..][1..] == rest[2..];
  }

  /**
   * Right after a failing client is dropped, the client behind it is not
   * sent the message at all in this broadcast.
   */
  lemma WalkSkipsNext(rest: seq<ClientId>, sender: Option<ClientId>, failing: set<ClientId>)
    requires Distinct(rest) && |rest| >= 2 && Drops(rest[0], sender, failing)
    ensures rest[1] !in Walk(rest, sender, failing).attempted
    ensures rest[1] in Walk(rest, sender, failing).survivors
  {
    assert rest[1] !in rest[2..];
    WalkMembers(rest[2..], sender, failing);
  }

  /** Every client other than the sender. */
  function Others(s: seq<ClientId>, sender: Option<ClientId>): (r: seq<ClientId>)
    ensures forall c :: c in r <==> c in s && Targets(c, sender)
  {
    MinusMembers(s, Sender(sender));
    Minus(s, Sender(sender))
  }

  /** When no send fails, the walk reaches every client but the sender and removes nobody. */
  lemma {:induction false} WalkWithoutFailures(rest: seq<ClientId>, sender: Option<ClientId>, failing: set<ClientId>)
    requires forall c :: c in rest ==> !Drops(c, sender, failing)
    ensures Walk(rest, sender, failing) == Fan(rest, Others(rest, sender))
    decreases |rest|
  {
    if rest != [] {
      WalkWithoutFailures(rest[1..], sender, failing);
      OthersStep(rest, sender);
    }
  }

  lemma OthersStep(rest: seq<ClientId>, sender: Option<ClientId>)
    requires rest != []
    ensures Others(rest, sender) == (if Targets(rest[0], sender) then [rest[0]] else []) + Others(rest[1..], sender)
  {
  }

  /**
   * Broadcast over a copy of the list, as the docstring intends ("to all
   * clients except sender"): every client but the sender is sent the message,
   * and those whose send fails are removed.
   */
  function Snapshot(clients: seq<ClientId>, sender: Option<ClientId>, failing: set<ClientId>): (f: Fan)
    ensures forall c :: c in f.attempted <==> c in clients && Targets(c, sender)
    ensures forall c :: c in f.survivors <==> c in clients && !Drops(c, sender, failing)
  {
    MinusMembers(clients, failing - Sender(sender));
    Fan(Minus(clients, failing - Sender(sender)), Others(clients, sender))
  }

  /** The corrected broadcast also takes out exactly the clients it closes. */
  lemma SnapshotSurvivors(clients: seq<ClientId>, sender: Option<ClientId>, failing: set<ClientId>)
    ensures var f := Snapshot(clients, sender, failing);
      f.survivors == Minus(clients, Closes(f.attempted, failing))
  {
    var f := Snapshot(clients, sender, failing);
    MinusCongruent(clients, failing - Sender(sender), Closes(f.attempted, failing));
  }

  /**
   * The live list while the copying broadcast is at position `k` of its copy:
   * the clients before `k` that survived, then the ones not yet visited. It
   * holds no duplicates and only clients of the copy.
   */
  lemma SnapshotPartDistinct(snapshot: seq<ClientId>, k: nat, x: set<ClientId>)
    requires k <= |snapshot| && Distinct(snapshot)
    ensures Distinct(Minus(snapshot[..k], x) + snapshot[k..])
    ensures forall c :: c in Minus(snapshot[..k], x) + snapshot[k..] ==> c in snapshot
  {
    MinusMembers(snapshot[..k], x);
    assert snapshot == snapshot[..k] + snapshot[k..];
    forall c | c in Minus(snapshot[..k], x) ensures c !in snapshot[k..] {
      var i :| 0 <= i < k && snapshot[i] == c;
    }
    DistinctConcat(Minus(snapshot[..k], x), snapshot[k..]);
  }

  /** Extending the prefix of `s` by one client. */
  lemma MinusPrefixStep(s: seq<ClientId>, k: nat, x: set<ClientId>)
    requires k < |s|
    ensures Minus(s[..k + 1], x) == Minus(s[..k], x) + (if s[k] in x then [] else [s[k]])
  {
    assert s[..k + 1] == s[..k] + [s[k]];
    MinusAppend(s[..k], s[k], x);
  }

  /** Visiting position `k` of the copy: a client in `x` is removed from the live list, any other stays. */
  lemma SnapshotStep(snapshot: seq<ClientId>, k: nat, x: set<ClientId>)
    requires k < |snapshot| && Distinct(snapshot)
    ensures var c := snapshot[k];
      var before := Minus(snapshot[..k], x) + snapshot[k..];
      (if c in x then Deregister(before, c) else before) == Minus(snapshot[..k + 1], x) + snapshot[k + 1..]
  {
    MinusPrefixStep(snapshot, k, x);
    if snapshot[k] in x {
      SnapshotDrop(snapshot, k, x);
    } else {
      SnapshotKeep(snapshot, k, x);
    }
  }

  lemma SnapshotKeep(snapshot: seq<ClientId>, k: nat, x: set<ClientId>)
    requires k < |snapshot|
    requires Minus(snapshot[..k + 1], x) == Minus(snapshot[..k], x) + [snapshot[k]]
    ensures Minus(snapshot[..k], x) + snapshot[k..] == Minus(snapshot[..k + 1], x) + snapshot[k + 1..]
  {
    assert snapshot[k..] == [snapshot[k]] + snapshot[k + 1..];
  }

  lemma SnapshotDrop(snapshot: seq<ClientId>, k: nat, x: set<ClientId>)
    requires k < |snapshot| && Distinct(snapshot)
    requires Minus(snapshot[..k + 1], x) == Minus(snapshot[..k], x)
    ensures Deregister(Minus(snapshot[..k], x) + snapshot[k..], snapshot[k]) == Minus(snapshot[..k + 1], x) + snapshot[k + 1..]
  {
    var c := snapshot[k];
    var kept := Minus(snapshot[..k], x);
    SnapshotPartDistinct(snapshot, k, x);
    assert snapshot[k..] == [c] + snapshot[k + 1..];
    assert kept + snapshot[k..] == kept + [c] + snapshot[k + 1..];
    RemoveAt(kept, c, snapshot[k + 1..]);
  }

  /** The clients the live iterator has passed when its index is `i` (it can run one past the end). */
  function Done(s: seq<ClientId>, i: nat): seq<ClientId> {
    s[..if i <= |s| then i else |s|]
  }

  /** The clients the live iterator has still to reach when its index is `i`. */
  function Ahead(s: seq<ClientId>, i: nat): seq<ClientId> {
    if i <= |s| then s[i..] else []
  }

  /** The iterator at index `i` has passed `Done` and sent to `attempted`; the walk of `Ahead` does the rest of `w`. */
  ghost predicate WalkAt(w: Fan, clients: seq<ClientId>, i: nat, attempted: seq<ClientId>, sender: Option<ClientId>, failing: set<ClientId>) {
    var f := Walk(Ahead(clients, i), sender, failing);
    w == Fan(Done(clients, i) + f.survivors, attempted + f.attempted)
  }

  /** Before the first turn nothing is passed and the walk of the whole list is the broadcast. */
  lemma WalkLoopEntry(clients: seq<ClientId>, sender: Option<ClientId>, failing: set<ClientId>)
    ensures WalkAt(Walk(clients, sender, failing), clients, 0, [], sender, failing)
  {
    assert Done(clients, 0) == [] && Ahead(clients, 0) == clients;
  }

  /** Once the iterator is past the end, the passed clients and the sends made are the whole broadcast. */
  lemma WalkLoopExit(w: Fan, clients: seq<ClientId>, i: nat, attempted: seq<ClientId>, sender: Option<ClientId>, failing: set<ClientId>)
    requires |clients| <= i && WalkAt(w, clients, i, attempted, sender, failing)
    ensures w == Fan(clients, attempted)
  {
    assert Ahead(clients, i) == [] && Done(clients, i) == clients;
  }

  /**
   * One turn of the live iterator at index `i`: the client there is visited,
   * removed if it drops, and the index moves on by one whatever happened.
   * The walk of what is left then accounts for the rest of the broadcast.
   */
  lemma WalkLoopStep(clients: seq<ClientId>, i: nat, sender: Option<ClientId>, failing: set<ClientId>, attempted: seq<ClientId>)
    requires i < |clients| && Distinct(clients)
    ensures var c := clients[i];
      var after := if Drops(c, sender, failing) then Deregister(clients, c) else clients;
      var f := Walk(Ahead(after, i + 1), sender, failing);
      var g := Walk(clients[i..], sender, failing);
      && i + 1 <= |after| + 1
      && Fan(clients[..i] + g.survivors, attempted + g.attempted)
         == Fan(Done(after, i + 1) + f.survivors, (attempted + (if Targets(c, sender) then [c] else [])) + f.attempted)
  {
    if Drops(clients[i], sender, failing) {
      WalkLoopDrop(clients, i, sender, failing, attempted);
    } else {
      WalkLoopKeep(clients, i, sender, failing, attempted);
    }
  }

  lemma WalkLoopKeep(clients: seq<ClientId>, i: nat, sender: Option<ClientId>, failing: set<ClientId>, attempted: seq<ClientId>)
    requires i < |clients| && !Drops(clients[i], sender, failing)
    ensures var c := clients[i];
      var f := Walk(Ahead(clients, i + 1), sender, failing);
      var g := Walk(clients[i..], sender, failing);
      Fan(clients[..i] + g.survivors, attempted + g.attempted)
        == Fan(Done(clients, i + 1) + f.survivors, (attempted + (if Targets(c, sender) then [c] else [])) + f.attempted)
  {
    var c := clients[i];
    var rest := clients[i..];
    WalkStep(rest, sender, failing);
    assert rest[0] == c && rest[1..] == Ahead(clients, i + 1);
    assert Done(clients, i + 1) == clients[..i] + [c];
    var f := Walk(Ahead(clients, i + 1), sender, failing);
    var t := if Targets(c, sender) then [c] else [];
    assert clients[..i] + ([c] + f.survivors) == (clients[..i] + [c]) + f.survivors;
    assert attempted + (t + f.attempted) == (attempted + t) + f.attempted;
  }

  lemma WalkLoopDrop(clients: seq<ClientId>, i: nat, sender: Option<ClientId>, failing: set<ClientId>, attempted: seq<ClientId>)
    requires i < |clients| && Distinct(clients) && Drops(clients[i], sender, failing)
    ensures var c := clients[i];
      var after := Deregister(clients, c);
      var f := Walk(Ahead(after, i + 1), sender, failing);
      var g := Walk(clients[i..], sender, failing);
      && i + 1 <= |after| + 1
      && Fan(clients[..i] + g.survivors, attempted + g.attempted)
         == Fan(Done(after, i + 1) + f.survivors, (attempted + [c]) + f.attempted)
  {
    DeregisterAt(clients, i);
    if i + 1 == |clients| {
      WalkLoopDropLast(clients, i, sender, failing, attempted);
    } else {
      WalkLoopDropSkip(clients, i, sender, failing, attempted);
    }
  }

  /** The last client drops: the iterator runs one past the end of the shortened list. */
  lemma WalkLoopDropLast(clients: seq<ClientId>, i: nat, sender: Option<ClientId>, failing: set<ClientId>, attempted: seq<ClientId>)
    requires i + 1 == |clients| && Drops(clients[i], sender, failing)
    ensures var after := clients[..i] + clients[i + 1..];
      var g := Walk(clients[i..], sender, failing);
      && Ahead(after, i + 1) == []
      && Fan(clients[..i] + g.survivors, attempted + g.attempted)
         == Fan(Done(after, i + 1), attempted + [clients[i]])
  {
    var rest := clients[i..];
    WalkStep(rest, sender, failing);
    assert rest == [clients[i]];
    var after := clients[..i] + clients[i + 1..];
    assert after == clients[..i];
  }

  /** A client that is not last drops: the one behind it moves into its slot and is passed over. */
  lemma WalkLoopDropSkip(clients: seq<ClientId>, i: nat, sender: Option<ClientId>, failing: set<ClientId>, attempted: seq<ClientId>)
    requires i + 1 < |clients| && Drops(clients[i], sender, failing)
    ensures var after := clients[..i] + clients[i + 1..];
      var f := Walk(Ahead(after, i + 1), sender, failing);
      var g := Walk(clients[i..], sender, failing);
      Fan(clients[..i] + g.survivors, attempted + g.attempted)
        == Fan(Done(after, i + 1) + f.survivors, (attempted + [clients[i]]) + f.attempted)
  {
    var rest := clients[i..];
    WalkStep(rest, sender, failing);
    assert rest[0] == clients[i] && rest[1] == clients[i + 1];
    var after := clients[..i] + clients[i + 1..];
    assert Ahead(after, i + 1) == rest[2..];
    assert Done(after, i + 1) == clients[..i] + [rest[1]];
    var f := Walk(rest[2..], sender, failing);
    assert clients[..i] + ([rest[1]] + f.survivors) == (clients[..i] + [rest[1]]) + f.survivors;
    assert attempted + ([clients[i]] + f.attempted) == (attempted + [clients[i]]) + f.attempted;
  }

  /** The smallest case: the first of two clients fails, and the second hears nothing. */
  lemma WalkCounterexample()
    ensures Walk([0, 1], None, {0}) == Fan([1], [0])
    ensures Snapshot([0, 1], None, {0}) == Fan([1], [0, 1])
  {
    assert [0, 1][1..] == [1];
    assert [1][1..] == [];
    NoSenderReachesAll([0, 1], {0});
    assert Minus([1], {0}) == [1];
  }

  /** When no send fails, the corrected and the written broadcast agree. */
  lemma SnapshotAgreesWithoutFailures(clients: seq<ClientId>, sender: Option<ClientId>, failing: set<ClientId>)
    requires forall c :: c in clients ==> !Drops(c, sender, failing)
    ensures Walk(clients, sender, failing) == Snapshot(clients, sender, failing)
  {
    WalkWithoutFailures(clients, sender, failing);
    MinusNone(clients, failing - Sender(sender));
  }

  /** A broadcast with no sender reaches every listed client. */
  lemma NoSenderReachesAll(s: seq<ClientId>, failing: set<ClientId>)
    ensures Snapshot(s, None, failing).attempted == s
    ensures Snapshot(s, None, failing).survivors == Minus(s, failing)
  {
    MinusNone(s, Sender(None));
    assert failing - Sender(None) == failing;
  }

  /**
   * A client's message never comes back to it, whatever the list and
   * whichever sends fail; when none fails, it reaches every other client, in
   * list order, on both the written and the corrected broadcast.
   */
  lemma SenderDoesNotHearItself(s: seq<ClientId>, a: ClientId, failing: set<ClientId>)
    ensures a !in Walk(s, Some(a), failing).attempted
    ensures a !in Snapshot(s, Some(a), failing).attempted
    ensures failing == {} ==> Walk(s, Some(a), failing).attempted == Others(s, Some(a))
    ensures failing == {} ==> Snapshot(s, Some(a), failing).attempted == Others(s, Some(a))
  {
    WalkMembers(s, Some(a), failing);
    if failing == {} {
      WalkWithoutFailures(s, Some(a), failing);
    }
  }
}
