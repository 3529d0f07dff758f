/** The table of live circuits: its key allocator, its three maps, and which circuit a datagram reaches. */
module CircuitTable {
  import opened Common
  import opened Callsigns

  /** The (index, id) pair a circuit goes by at one node. */
  datatype Key = Key(index: byte, id: byte)

  /** A peer's circuit: its node and the pair it goes by there. */
  datatype Peer = Peer(node: Callsign, key: Key)

  /** A circuit object, told apart by when it was made. */
  datatype Circuit = Circuit(serial: nat, key: Key)

  /** `minted` counts the circuits ever made; `mintedFor` remembers whom each inbound one was made for. */
  datatype Table = Table(
    byLocalKey: map<Key, Circuit>,
    byPeerKey: map<Peer, Circuit>,
    peerKeyOf: map<Circuit, Peer>,
    minted: nat,
    mintedFor: map<Circuit, Peer>)

  const NOTHING := Table(map[], map[], map[], 0, map[])

  const KEYS := 65536

  /** The next key in probe order: the index runs, and each time it wraps the id steps. */
  function Successor(k: Key): Key {
    Key((k.index + 1) % 256, if k.index == 255 then (k.id + 1) % 256 else k.id)
  }

  /** The `d`th key after `start`. */
  function Probed(start: Key, d: nat): Key {
    if d == 0 then start else Successor(Probed(start, d - 1))
  }

  /** The key `n` places along the probe order from (0, 0). */
  function KeyAt(n: nat): Key {
    Key(n % 256, n / 256 % 256)
  }

  function PlaceOf(k: Key): (n: nat)
    ensures n < KEYS
  {
    k.id as int * 256 + k.index
  }

  lemma PlaceIs(k: Key)
    ensures KeyAt(PlaceOf(k)) == k
  {
  }

  lemma KeyAtNext(n: nat)
    ensures KeyAt(n + 1) == Successor(KeyAt(n))
  {
    IndexRuns(n);
    if n % 256 == 255 {
      IdSteps(n / 256);
    }
  }

  lemma IndexRuns(n: nat)
    ensures if n % 256 == 255 then (n + 1) % 256 == 0 && (n + 1) / 256 == n / 256 + 1
            else (n + 1) % 256 == n % 256 + 1 && (n + 1) / 256 == n / 256
  {
  }

  lemma IdSteps(q: nat)
    ensures (q + 1) % 256 == (q % 256 + 1) % 256
  {
  }

  lemma KeyAtTurn(n: nat)
    ensures KeyAt(n + KEYS) == KeyAt(n)
  {
    assert n + KEYS == n + 256 * 256;
    assert (n + KEYS) / 256 == n / 256 + 256;
  }

  lemma {:induction false} ProbedIs(n: nat, d: nat)
    ensures Probed(KeyAt(n), d) == KeyAt(n + d)
  {
    if d > 0 {
      ProbedIs(n, d - 1);
      KeyAtNext(n + d - 1);
    }
  }

  /** A probe of all the places comes by every key and back to where it started. */
  lemma ProbeReaches(start: Key, k: Key)
    ensures exists d :: 0 <= d < KEYS && Probed(start, d) == k
    ensures Probed(start, KEYS) == start
  {
    var n, p := PlaceOf(start), PlaceOf(k);
    PlaceIs(start);
    PlaceIs(k);
    var d := if n <= p then p - n else p + KEYS - n;
    ProbedIs(n, d);
    KeyAtTurn(p);
    assert Probed(start, d) == k;
    ProbedIs(n, KEYS);
    KeyAtTurn(n);
  }

  /** From `next` on, `key` is the first one in probe order that no live circuit holds, and `next'` the one after it. */
  ghost predicate Allocates(t: Table, next: Key, key: Key, next': Key) {
    exists d :: 0 <= d < KEYS && IsFirstFree(t, next, d) && key == Probed(next, d) && next' == Successor(key)
  }

  predicate TakenBefore(t: Table, start: Key, d: nat) {
    forall j :: 0 <= j < d ==> Probed(start, j) in t.byLocalKey
  }

  predicate IsFirstFree(t: Table, start: Key, d: nat) {
    Probed(start, d) !in t.byLocalKey && TakenBefore(t, start, d)
  }

  // ---- What each operation does to the table ---------------------------------------------------------------

  /** Make a circuit under a free key; `peer` is whom an inbound one is for. */
  function Registered(t: Table, key: Key, peer: Option<Peer>): Table {
    var c := Circuit(t.minted, key);
    var t1 := t.(byLocalKey := t.byLocalKey[key := c], minted := t.minted + 1);
    if peer.None? then t1
    else t1.(byPeerKey := t.byPeerKey[peer.value := c], peerKeyOf := t.peerKeyOf[c := peer.value],
             mintedFor := t.mintedFor[c := peer.value])
  }

  function Deregistered(t: Table, c: Circuit): Table {
    var t1 := t.(byLocalKey := t.byLocalKey - {c.key});
    if c !in t.peerKeyOf then t1
    else t1.(peerKeyOf := t.peerKeyOf - {c}, byPeerKey := t.byPeerKey - {t.peerKeyOf[c]})
  }

  /** What the manager does with a datagram. */
  datatype Routing =
    | ToCircuit(circuit: Circuit)
    | Minted(circuit: Circuit)
    | ReflectDisconnectAck(destination: Callsign, key: Key)
    | Dropped
    | Exhausted

  class CircuitManager {
    var table: Table
    var nextIndex: byte
    var nextId: byte

    /** Where the next probe starts. */
    function Upcoming(): Key
      reads this
    {
      Key(nextIndex, nextId)
    }

    constructor ()
      ensures table == NOTHING && Upcoming() == Key(0, 0)
    {
      table := NOTHING;
      nextIndex, nextId := 0, 0;
    }

    /** A key no live circuit holds, the first in probe order; None only when every key is held. */
    method AllocateKey() returns (r: Option<Key>)
      modifies this`nextIndex, this`nextId
      ensures r.None? <==> forall k: Key :: k in table.byLocalKey
      ensures r.Some? ==> r.value !in table.byLocalKey && Allocates(table, old(Upcoming()), r.value, Upcoming())
      ensures r.None? ==> Upcoming() == old(Upcoming())
    {
      ghost var start := Upcoming();
      for attempt := 0 to KEYS
        invariant Upcoming() == Probed(start, attempt)
        invariant TakenBefore(table, start, attempt)
      {
        var key := Key(nextIndex, nextId);
        OneMoreTaken(table, start, attempt);
        nextIndex := (nextIndex + 1) % 256;
        if nextIndex == 0 {
          nextId := (nextId + 1) % 256;
        }
        if key !in table.byLocalKey {
          FirstFreeIsAllocated(table, start, attempt);
          return Some(key);
        }
      }
      NoneFree(table, start);
      return None;
    }

    /** Make a circuit of our own; None when the table is full, where the original throws. */
    method OpenCircuit() returns (c: Option<Circuit>)
      modifies this
      ensures c.None? <==> forall k: Key :: k in old(table).byLocalKey
      ensures c.None? ==> table == old(table) && Upcoming() == old(Upcoming())
      ensures c.Some? ==> c.value.key !in old(table).byLocalKey && c.value.serial == old(table).minted
                          && table == Registered(old(table), c.value.key, None)
                          && Allocates(old(table), old(Upcoming()), c.value.key, Upcoming())
    {
      var key := AllocateKey();
      if key.None? {
        return None;
      }
      c := Some(Circuit(table.minted, key.value));
      table := Registered(table, key.value, None);
    }

    /** A Connect Request, which names the peer's own circuit. */
    method OnConnectRequest(origin: Callsign, index: byte, id: byte) returns (r: Routing)
      modifies this
      ensures var peer := Peer(origin, Key(index, id));
              if peer in old(table).byPeerKey then
                table == old(table) && Upcoming() == old(Upcoming()) && r == ToCircuit(old(table).byPeerKey[peer])
              else if forall k: Key :: k in old(table).byLocalKey then
                table == old(table) && Upcoming() == old(Upcoming()) && r == Exhausted
              else r.Minted? && r.circuit.key !in old(table).byLocalKey && r.circuit.serial == old(table).minted
                   && table == Registered(old(table), r.circuit.key, Some(peer))
                   && Allocates(old(table), old(Upcoming()), r.circuit.key, Upcoming())
    {
      var peer := Peer(origin, Key(index, id));
      if peer in table.byPeerKey {
        return ToCircuit(table.byPeerKey[peer]);
      }
      var key := AllocateKey();
      if key.None? {
        return Exhausted;
      }
      r := Minted(Circuit(table.minted, key.value));
      table := Registered(table, key.value, Some(peer));
    }

    /** Any other datagram, addressed to a circuit of ours. */
    method OnOther(origin: Callsign, index: byte, id: byte, disconnectRequest: bool) returns (r: Routing)
      ensures Consistent(table) ==> Routes(table, origin, Key(index, id), disconnectRequest, r)
    {
      var key := Key(index, id);
      if key in table.byLocalKey {
        return ToCircuit(table.byLocalKey[key]);
      }
      if disconnectRequest {
        return ReflectDisconnectAck(origin, key);
      }
      return Dropped;
    }

    /** A circuit closed, or was refused. */
    method Deregister(c: Circuit)
      modifies this`table
      ensures table == Deregistered(old(table), c)
    {
      table := table.(byLocalKey := table.byLocalKey - {c.key});
      if c in table.peerKeyOf {
        var peer := table.peerKeyOf[c];
        table := table.(peerKeyOf := table.peerKeyOf - {c}, byPeerKey := table.byPeerKey - {peer});
      }
    }
  }

  /** `c` is the live circuit that goes by `key`. */
  predicate Holds(t: Table, key: Key, c: Circuit) {
    Live(t, c) && c.key == key
  }

  ghost predicate Held(t: Table, key: Key) {
    exists c :: Holds(t, key, c)
  }

  /**
   * Where a datagram for `key` goes: to the live circuit that holds the key; with none, a Disconnect Request is
   * answered to its origin under that very key and anything else is dropped.
   */
  ghost predicate Routes(t: Table, origin: Callsign, key: Key, disconnectRequest: bool, r: Routing) {
    match r
    case ToCircuit(c) => Holds(t, key, c)
    case ReflectDisconnectAck(destination, reflected) =>
      !Held(t, key) && disconnectRequest && destination == origin && reflected == key
    case Dropped => !Held(t, key) && !disconnectRequest
    case _ => false
  }

  /** A datagram has one place to go. */
  lemma RoutesOneWay(t: Table, origin: Callsign, key: Key, disconnectRequest: bool, r: Routing, r': Routing)
    requires Routes(t, origin, key, disconnectRequest, r) && Routes(t, origin, key, disconnectRequest, r')
    ensures r == r'
  {
    if r.ToCircuit? && !r'.ToCircuit? {
      assert Held(t, key);
    } else if r'.ToCircuit? && !r.ToCircuit? {
      assert Held(t, key);
    }
  }

  lemma OneMoreTaken(t: Table, start: Key, d: nat)
    requires TakenBefore(t, start, d)
    ensures TakenBefore(t, start, d + 1) <==> Probed(start, d) in t.byLocalKey
  {
  }

  lemma NoneFree(t: Table, start: Key)
    requires TakenBefore(t, start, KEYS)
    ensures (forall k: Key :: k in t.byLocalKey) && Probed(start, KEYS) == start
  {
    ProbeReaches(start, start);
    forall k: Key ensures k in t.byLocalKey {
      ProbeReaches(start, k);
    }
  }

  lemma FirstFreeIsAllocated(t: Table, next: Key, d: nat)
    requires d < KEYS && IsFirstFree(t, next, d)
    ensures Allocates(t, next, Probed(next, d), Successor(Probed(next, d)))
  {
  }

  // ---- Every run -------------------------------------------------------------------------------------------

  predicate Live(t: Table, c: Circuit) {
    c.key in t.byLocalKey && t.byLocalKey[c.key] == c
  }

  predicate KeysAgree(t: Table) {
    forall k :: k in t.byLocalKey ==> t.byLocalKey[k].key == k && t.byLocalKey[k].serial < t.minted
  }

  predicate PeersAgree(t: Table) {
    && (forall p :: p in t.byPeerKey ==> t.byPeerKey[p] in t.peerKeyOf && t.peerKeyOf[t.byPeerKey[p]] == p)
    && (forall c :: c in t.peerKeyOf ==> t.peerKeyOf[c] in t.byPeerKey && t.byPeerKey[t.peerKeyOf[c]] == c)
  }

  predicate InboundLive(t: Table) {
    forall c :: c in t.peerKeyOf ==> Live(t, c) && c in t.mintedFor && t.mintedFor[c] == t.peerKeyOf[c]
  }

  predicate HistoryAgrees(t: Table) {
    forall c :: c in t.mintedFor ==> c.serial < t.minted && (Live(t, c) ==> c in t.peerKeyOf)
  }

  /** The maps agree with each other and with whom the live circuits were made for. */
  predicate Consistent(t: Table) {
    KeysAgree(t) && PeersAgree(t) && InboundLive(t) && HistoryAgrees(t)
  }

  lemma RegisterKeeps(t: Table, key: Key, peer: Option<Peer>)
    requires Consistent(t) && key !in t.byLocalKey && (peer.Some? ==> peer.value !in t.byPeerKey)
    ensures Consistent(Registered(t, key, peer)) && Live(Registered(t, key, peer), Circuit(t.minted, key))
  {
    RegisterInbound(t, key, peer);
    RegisterHistory(t, key, peer);
    RegisterPeers(t, key, peer);
  }

  /** Making a circuit costs no other. */
  lemma RegisterAdds(t: Table, key: Key, peer: Option<Peer>, d: Circuit)
    requires key !in t.byLocalKey
    ensures Live(Registered(t, key, peer), d) <==> Live(t, d) || d == Circuit(t.minted, key)
  {
  }

  lemma RegisterInbound(t: Table, key: Key, peer: Option<Peer>)
    requires InboundLive(t) && key !in t.byLocalKey
    ensures InboundLive(Registered(t, key, peer))
  {
    var t', c := Registered(t, key, peer), Circuit(t.minted, key);
    forall d | d in t'.peerKeyOf
      ensures Live(t', d) && d in t'.mintedFor && t'.mintedFor[d] == t'.peerKeyOf[d]
    {
      assert d != c ==> Live(t, d);
    }
  }

  lemma RegisterHistory(t: Table, key: Key, peer: Option<Peer>)
    requires HistoryAgrees(t) && key !in t.byLocalKey
    ensures HistoryAgrees(Registered(t, key, peer))
  {
    var t', c := Registered(t, key, peer), Circuit(t.minted, key);
    forall d | d in t'.mintedFor && d != c && Live(t', d) ensures d in t'.peerKeyOf {
      assert d.key != key && Live(t, d);
    }
  }

  lemma RegisterPeers(t: Table, key: Key, peer: Option<Peer>)
    requires PeersAgree(t) && InboundLive(t) && KeysAgree(t) && key !in t.byLocalKey
    requires peer.Some? ==> peer.value !in t.byPeerKey
    ensures PeersAgree(Registered(t, key, peer))
  {
    assert Circuit(t.minted, key) !in t.peerKeyOf;
  }

  /** No live inbound circuit but `c` goes by `c`'s key. */
  predicate MayClose(t: Table, c: Circuit) {
    c.key in t.byLocalKey && t.byLocalKey[c.key] in t.peerKeyOf ==> t.byLocalKey[c.key] == c
  }

  /**
   * Dropping a circuit, live or not, costs exactly the live circuit that goes by its key, and keeps the table
   * consistent exactly when that is not another inbound one.
   */
  lemma DeregisterKeepsIff(t: Table, c: Circuit)
    requires Consistent(t)
    ensures forall d :: Live(t, d) && !Live(Deregistered(t, c), d) <==> Holds(t, c.key, d)
    ensures Consistent(Deregistered(t, c)) <==> MayClose(t, c)
  {
    var t' := Deregistered(t, c);
    if !MayClose(t, c) {
      var other := t.byLocalKey[c.key];
      assert other in t'.peerKeyOf && !Live(t', other);
    } else {
      DeregisterKeeps(t, c);
    }
  }

  lemma DeregisterKeeps(t: Table, c: Circuit)
    requires Consistent(t) && MayClose(t, c)
    ensures Consistent(Deregistered(t, c))
  {
    DeregisterInbound(t, c);
    DeregisterHistory(t, c);
    assert PeersAgree(Deregistered(t, c));
  }

  lemma DeregisterInbound(t: Table, c: Circuit)
    requires InboundLive(t) && MayClose(t, c)
    ensures InboundLive(Deregistered(t, c))
  {
    var t' := Deregistered(t, c);
    forall d | d in t'.peerKeyOf
      ensures Live(t', d) && d in t'.mintedFor && t'.mintedFor[d] == t'.peerKeyOf[d]
    {
      assert d in t.peerKeyOf && d != c && Live(t, d);
    }
  }

  lemma DeregisterHistory(t: Table, c: Circuit)
    requires HistoryAgrees(t)
    ensures HistoryAgrees(Deregistered(t, c))
  {
    var t' := Deregistered(t, c);
    forall d | d in t'.mintedFor && Live(t', d) ensures d in t'.peerKeyOf {
      assert Live(t, d) && d.key != c.key;
    }
  }

  /**
   * Dropping a circuit that is no longer live changes the table exactly when another live circuit goes by its key by
   * now, and then it is that circuit's entry that is lost.
   */
  lemma StaleDeregisterIff(t: Table, c: Circuit)
    requires Consistent(t) && !Live(t, c)
    ensures Deregistered(t, c) != t <==> Held(t, c.key)
    ensures forall d :: Live(t, d) && !Live(Deregistered(t, c), d) <==> Holds(t, c.key, d)
  {
    assert c !in t.peerKeyOf;
    if c.key in t.byLocalKey {
      assert Holds(t, c.key, t.byLocalKey[c.key]);
      assert c.key !in Deregistered(t, c).byLocalKey;
    } else {
      assert t.byLocalKey - {c.key} == t.byLocalKey;
    }
  }

  datatype Event =
    | Opened(key: Key)
    | Connect(peer: Peer, key: Key)
    | Closed(circuit: Circuit)

  /**
   * One operation that changes the table. A circuit may close again after it was dropped, as one that is connected
   * again does. Any free key may be given out here; CircuitAllocation adds which one it is.
   */
  predicate Step(t: Table, e: Event, t': Table) {
    match e
    case Opened(key) => key !in t.byLocalKey && t' == Registered(t, key, None)
    case Connect(peer, key) => peer !in t.byPeerKey && key !in t.byLocalKey && t' == Registered(t, key, Some(peer))
    case Closed(c) => t' == Deregistered(t, c)
  }

  predicate Run(ts: seq<Table>, es: seq<Event>) {
    && |ts| == |es| + 1 && ts[0] == NOTHING
    && forall i :: 0 <= i < |es| ==> Step(ts[i], es[i], ts[i + 1])
  }

  /** No close among the first `i` events met another live inbound circuit under its key. */
  predicate NoClash(ts: seq<Table>, es: seq<Event>, i: nat)
    requires |ts| == |es| + 1 && i <= |es|
  {
    forall j :: 0 <= j < i && es[j].Closed? ==> MayClose(ts[j], es[j].circuit)
  }

  lemma StepConsistentIff(t: Table, e: Event, t': Table)
    requires Consistent(t) && Step(t, e, t')
    ensures Consistent(t') <==> (e.Closed? ==> MayClose(t, e.circuit))
  {
    match e
    case Opened(key) => RegisterKeeps(t, key, None);
    case Connect(peer, key) => RegisterKeeps(t, key, Some(peer));
    case Closed(c) => DeregisterKeepsIff(t, c);
  }

  /**
   * Over every run, whatever closes and however often, the maps have agreed all along if and only if no close so far
   * met another live inbound circuit under its key.
   */
  lemma {:induction false} RunIsConsistentIff(ts: seq<Table>, es: seq<Event>, i: nat)
    requires Run(ts, es) && i < |ts|
    ensures (forall j :: 0 <= j <= i ==> Consistent(ts[j])) <==> NoClash(ts, es, i)
  {
    if i > 0 {
      RunIsConsistentIff(ts, es, i - 1);
      if Consistent(ts[i - 1]) {
        assert Step(ts[i - 1], es[i - 1], ts[i]);
        StepConsistentIff(ts[i - 1], es[i - 1], ts[i]);
      }
    }
  }

  /**
   * As long as that is so, no two live circuits were made for the same peer circuit, and a Connect Request reaches a
   * circuit only if that circuit is live and was made for the peer circuit it names.
   */
  lemma OneCircuitPerPeer(ts: seq<Table>, es: seq<Event>, i: nat, c: Circuit, d: Circuit, peer: Peer)
    requires Run(ts, es) && i < |ts| && NoClash(ts, es, i)
    ensures var t := ts[i];
            && (Live(t, c) && Live(t, d) && c in t.mintedFor && d in t.mintedFor && t.mintedFor[c] == t.mintedFor[d]
                ==> c == d)
            && (peer in t.byPeerKey ==>
                  Live(t, t.byPeerKey[peer]) && t.byPeerKey[peer] in t.mintedFor
                  && t.mintedFor[t.byPeerKey[peer]] == peer)
            && (Live(t, c) && c in t.mintedFor && t.mintedFor[c] == peer ==> peer in t.byPeerKey)
  {
    RunIsConsistentIff(ts, es, i);
  }

  /**
   * The acknowledge sent back for a Disconnect Request to a circuit we no longer have carries the pair the request was
   * addressed to, which is ours: it reaches the requesting circuit exactly when the two ends go by the same pair.
   */
  lemma ReflectedAckReachesIff(ours: Table, theirs: Table, us: Callsign, them: Callsign, requester: Circuit, key: Key,
                               r: Routing, s: Routing)
    requires Consistent(theirs) && Live(theirs, requester) && !Held(ours, key)
    requires Routes(ours, them, key, true, r) && (r.ReflectDisconnectAck? ==> Routes(theirs, us, r.key, false, s))
    ensures r == ReflectDisconnectAck(them, key)
    ensures s == ToCircuit(requester) <==> requester.key == key
  {
    if requester.key == key {
      RoutesOneWay(theirs, us, key, false, s, ToCircuit(requester));
    }
  }

  /**
   * It can reach the wrong circuit. They open two circuits; we accept the second one and close it on our side; their
   * Disconnect Request for it is answered under our key, which at their node is the first one's.
   */
  lemma ReflectedAckMisses(us: Callsign, them: Callsign, s: Routing)
    ensures var first, second := Key(0, 0), Key(1, 0);
            var a, b, c := Circuit(0, first), Circuit(1, second), Circuit(0, first);
            var theirs1 := Registered(NOTHING, first, None);
            var theirs2 := Registered(theirs1, second, None);
            var ours1 := Registered(NOTHING, first, Some(Peer(them, second)));
            var ours2 := Deregistered(ours1, c);
            && Run([NOTHING, theirs1, theirs2], [Opened(first), Opened(second)])
            && Run([NOTHING, ours1, ours2], [Connect(Peer(them, second), first), Closed(c)])
            && Live(theirs2, b)
            && Routes(ours2, them, first, true, ReflectDisconnectAck(them, first))
            && (Routes(theirs2, us, first, false, s) ==> s == ToCircuit(a) && a != b)
  {
    var first, second := Key(0, 0), Key(1, 0);
    var theirs2 := Registered(Registered(NOTHING, first, None), second, None);
    assert Routes(theirs2, us, first, false, ToCircuit(Circuit(0, first)));
    if Routes(theirs2, us, first, false, s) {
      RoutesOneWay(theirs2, us, first, false, s, ToCircuit(Circuit(0, first)));
    }
  }
}
