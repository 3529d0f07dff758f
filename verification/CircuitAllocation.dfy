/**
 * The circuit manager over every run with the keys its allocator really gives out: nothing goes wrong until all of
 * them have been given out once, and a second close of a circuit can go wrong right after that.
 */
module CircuitAllocation {
  import opened Common
  import opened CircuitTable

  /** The table and where the next probe starts. */
  datatype Manager = Manager(table: Table, next: Key)

  const IDLE := Manager(NOTHING, Key(0, 0))

  /** One operation of `CircuitManager`, as its methods' contracts have it. */
  ghost predicate Moves(m: Manager, e: Event, m': Manager) {
    match e
    case Opened(key) => Allocates(m.table, m.next, key, m'.next) && m'.table == Registered(m.table, key, None)
    case Connect(peer, key) =>
      peer !in m.table.byPeerKey && Allocates(m.table, m.next, key, m'.next)
      && m'.table == Registered(m.table, key, Some(peer))
    case Closed(c) => m'.next == m.next && m'.table == Deregistered(m.table, c)
  }

  ghost predicate MovesAt(ms: seq<Manager>, es: seq<Event>, i: nat)
    requires i < |es| && |ms| == |es| + 1
  {
    Moves(ms[i], es[i], ms[i + 1])
  }

  /** Event `i` made the circuit `c`. */
  predicate MadeAt(ms: seq<Manager>, es: seq<Event>, i: nat, c: Circuit) {
    i < |es| && i < |ms| && !es[i].Closed? && es[i].key == c.key && ms[i].table.minted == c.serial
  }

  /** Only a circuit that was made can close, once or again. */
  ghost predicate ClosesMade(ms: seq<Manager>, es: seq<Event>, j: nat)
    requires j < |es|
  {
    es[j].Closed? ==> exists i :: 0 <= i < j && MadeAt(ms, es, i, es[j].circuit)
  }

  ghost predicate ManagerRun(ms: seq<Manager>, es: seq<Event>) {
    && |ms| == |es| + 1 && ms[0] == IDLE
    && (forall i {:trigger MovesAt(ms, es, i)} :: 0 <= i < |es| ==> MovesAt(ms, es, i))
    && (forall j {:trigger ClosesMade(ms, es, j)} :: 0 <= j < |es| ==> ClosesMade(ms, es, j))
  }

  function Tables(ms: seq<Manager>): (ts: seq<Table>)
    ensures |ts| == |ms| && forall i :: 0 <= i < |ts| ==> ts[i] == ms[i].table
  {
    seq<Table>(|ms|, i requires 0 <= i < |ms| => ms[i].table)
  }

  /** So everything proved of the table's runs holds of the manager's. */
  lemma ManagerRunIsRun(ms: seq<Manager>, es: seq<Event>)
    requires ManagerRun(ms, es)
    ensures Run(Tables(ms), es)
  {
    var ts := Tables(ms);
    forall i | 0 <= i < |es| ensures Step(ts[i], es[i], ts[i + 1]) {
      assert MovesAt(ms, es, i);
    }
  }

  // ---- The first lap ---------------------------------------------------------------------------------------

  lemma KeysApart(a: nat, b: nat)
    requires a < KEYS && b < KEYS && KeyAt(a) == KeyAt(b)
    ensures a == b
  {
    assert a == 256 * (a / 256) + a % 256 && b == 256 * (b / 256) + b % 256;
    assert a / 256 < 256 && b / 256 < 256;
  }

  /** Each circuit goes by the key its serial number stands for. */
  predicate InOrder(m: Manager) {
    && m.next == KeyAt(m.table.minted)
    && forall k :: k in m.table.byLocalKey ==>
         m.table.byLocalKey[k].key == k == KeyAt(m.table.byLocalKey[k].serial)
         && m.table.byLocalKey[k].serial < m.table.minted
  }

  /** On the first lap the key at hand is free, so the probe takes it. */
  lemma TakesNext(m: Manager, key: Key, next': Key)
    requires InOrder(m) && m.table.minted < KEYS && Allocates(m.table, m.next, key, next')
    ensures key == KeyAt(m.table.minted) && next' == KeyAt(m.table.minted + 1)
  {
    var n := m.table.minted;
    KeyAtNext(n);
    if KeyAt(n) in m.table.byLocalKey {
      KeysApart(m.table.byLocalKey[KeyAt(n)].serial, n);
    }
    var d :| 0 <= d < KEYS && IsFirstFree(m.table, m.next, d) && key == Probed(m.next, d) && next' == Successor(key);
    assert Probed(m.next, 0) == KeyAt(n);
    assert d == 0;
  }

  lemma MoveKeepsOrder(m: Manager, e: Event, m': Manager)
    requires InOrder(m) && Moves(m, e, m') && m'.table.minted <= KEYS
    ensures InOrder(m')
  {
    if !e.Closed? {
      TakesNext(m, e.key, m'.next);
    }
  }

  lemma MoveMints(m: Manager, e: Event, m': Manager)
    requires Moves(m, e, m')
    ensures m'.table.minted == m.table.minted + if e.Closed? then 0 else 1
  {
  }

  lemma {:induction false} MintedGrows(ms: seq<Manager>, es: seq<Event>, i: nat, j: nat)
    requires ManagerRun(ms, es) && i <= j < |ms|
    ensures ms[i].table.minted <= ms[j].table.minted
    decreases j - i
  {
    if i < j {
      MintedGrows(ms, es, i, j - 1);
      assert MovesAt(ms, es, j - 1);
      MoveMints(ms[j - 1], es[j - 1], ms[j]);
    }
  }

  lemma {:induction false} RunKeepsOrder(ms: seq<Manager>, es: seq<Event>, i: nat)
    requires ManagerRun(ms, es) && i < |ms| && ms[i].table.minted <= KEYS
    ensures InOrder(ms[i])
  {
    if i > 0 {
      assert MovesAt(ms, es, i - 1);
      MoveMints(ms[i - 1], es[i - 1], ms[i]);
      RunKeepsOrder(ms, es, i - 1);
      MoveKeepsOrder(ms[i - 1], es[i - 1], ms[i]);
    }
  }

  /** On the first lap a circuit's key is nobody else's, however often it closes. */
  lemma CloseIsHarmless(ms: seq<Manager>, es: seq<Event>, j: nat)
    requires ManagerRun(ms, es) && j < |es| && ms[j].table.minted <= KEYS && es[j].Closed?
    ensures MayClose(ms[j].table, es[j].circuit)
  {
    var c := es[j].circuit;
    assert ClosesMade(ms, es, j);
    var i :| 0 <= i < j && MadeAt(ms, es, i, c);
    assert MovesAt(ms, es, i);
    MoveMints(ms[i], es[i], ms[i + 1]);
    MintedGrows(ms, es, i + 1, j);
    RunKeepsOrder(ms, es, i);
    RunKeepsOrder(ms, es, j);
    TakesNext(ms[i], c.key, ms[i + 1].next);
    if c.key in ms[j].table.byLocalKey {
      KeysApart(ms[j].table.byLocalKey[c.key].serial, c.serial);
    }
  }

  /** Until more than 65536 circuits have been made, the maps agree, whatever closes and however often. */
  lemma FirstLapIsConsistent(ms: seq<Manager>, es: seq<Event>, i: nat)
    requires ManagerRun(ms, es) && i < |ms| && ms[i].table.minted <= KEYS
    ensures Consistent(ms[i].table) && NoClash(Tables(ms), es, i)
  {
    var ts := Tables(ms);
    forall j | 0 <= j < i && es[j].Closed? ensures MayClose(ts[j], es[j].circuit) {
      MintedGrows(ms, es, j, i);
      CloseIsHarmless(ms, es, j);
    }
    ManagerRunIsRun(ms, es);
    RunIsConsistentIff(ts, es, i);
  }

  // ---- The second lap --------------------------------------------------------------------------------------

  /** No circuit left of the `n` that were made. */
  function AllClosed(n: nat): Manager {
    Manager(NOTHING.(minted := n), KeyAt(n))
  }

  ghost predicate Made(ms: seq<Manager>, es: seq<Event>, c: Circuit) {
    exists i :: 0 <= i < |es| && MadeAt(ms, es, i, c)
  }

  /** A run with one more event. */
  lemma Extend(ms: seq<Manager>, es: seq<Event>, e: Event, m': Manager) returns (ms': seq<Manager>, es': seq<Event>)
    requires ManagerRun(ms, es) && Moves(ms[|es|], e, m') && (e.Closed? ==> Made(ms, es, e.circuit))
    ensures ManagerRun(ms', es') && ms' == ms + [m'] && es' == es + [e]
    ensures forall c :: Made(ms, es, c) ==> Made(ms', es', c)
    ensures !e.Closed? ==> Made(ms', es', Circuit(ms[|es|].table.minted, e.key))
  {
    ms', es' := ms + [m'], es + [e];
    forall i | 0 <= i < |es'| ensures MovesAt(ms', es', i) {
      assert i < |es| ==> MovesAt(ms, es, i);
    }
    forall c, i | 0 <= i < |es| && MadeAt(ms, es, i, c) ensures MadeAt(ms', es', i, c) {
    }
    forall j | 0 <= j < |es'| ensures ClosesMade(ms', es', j) {
      assert j < |es| ==> ClosesMade(ms, es, j);
    }
    assert !e.Closed? ==> MadeAt(ms', es', |es|, Circuit(ms[|es|].table.minted, e.key));
  }

  /** One circuit, the `n`th ever made. */
  function OneLive(n: nat, peer: Option<Peer>): Manager {
    Manager(Registered(AllClosed(n).table, KeyAt(n), peer), KeyAt(n + 1))
  }

  /** With nothing live, the next key goes to a new circuit, ours or a peer's. */
  lemma TakesFresh(n: nat, peer: Option<Peer>)
    ensures var e := if peer.None? then Opened(KeyAt(n)) else Connect(peer.value, KeyAt(n));
            Moves(AllClosed(n), e, OneLive(n, peer))
  {
    KeyAtNext(n);
    FirstFreeIsAllocated(AllClosed(n).table, KeyAt(n), 0);
  }

  lemma ClosesAgain(n: nat)
    ensures Moves(OneLive(n, None), Closed(Circuit(n, KeyAt(n))), AllClosed(n + 1))
  {
    assert map[KeyAt(n) := Circuit(n, KeyAt(n))] - {KeyAt(n)} == map[];
  }

  /** One more circuit opened and closed. */
  lemma OneCall(ms: seq<Manager>, es: seq<Event>, n: nat) returns (ms': seq<Manager>, es': seq<Event>)
    requires ManagerRun(ms, es) && ms[|es|] == AllClosed(n)
    ensures ManagerRun(ms', es') && ms'[|es'|] == AllClosed(n + 1)
    ensures forall c :: Made(ms, es, c) ==> Made(ms', es', c)
    ensures Made(ms', es', Circuit(n, KeyAt(n)))
  {
    TakesFresh(n, None);
    var ms1, es1 := Extend(ms, es, Opened(KeyAt(n)), OneLive(n, None));
    ClosesAgain(n);
    ms', es' := Extend(ms1, es1, Closed(Circuit(n, KeyAt(n))), AllClosed(n + 1));
  }

  /** `n` circuits opened and closed one after the other. */
  lemma {:induction false} Calls(n: nat) returns (ms: seq<Manager>, es: seq<Event>)
    ensures ManagerRun(ms, es) && ms[|es|] == AllClosed(n)
    ensures n > 0 ==> Made(ms, es, Circuit(0, KeyAt(0)))
  {
    if n == 0 {
      ms, es := [IDLE], [];
    } else {
      ms, es := Calls(n - 1);
      ms, es := OneCall(ms, es, n - 1);
    }
  }

  /** What closing the first circuit again does to the live one that has its key. */
  lemma SecondIsDropped(n: nat, peer: Option<Peer>)
    requires n > 0 && KeyAt(n) == KeyAt(0)
    ensures var up, first, second := OneLive(n, peer), Circuit(0, KeyAt(0)), Circuit(n, KeyAt(0));
            var end := Manager(Deregistered(up.table, first), up.next);
            && Moves(up, Closed(first), end) && Live(up.table, second) && !Live(end.table, second)
            && (peer.Some? ==> !InboundLive(end.table) && peer.value in end.table.byPeerKey
                               && end.table.byPeerKey[peer.value] == second)
  {
    var end := Deregistered(OneLive(n, peer).table, Circuit(0, KeyAt(0)));
    if peer.Some? {
      assert Circuit(n, KeyAt(0)) in end.peerKeyOf && !Live(end, Circuit(n, KeyAt(0)));
    }
  }

  lemma SameKeyAgain()
    ensures KeyAt(KEYS) == KeyAt(0)
  {
    KeyAtTurn(0);
  }

  /**
   * The bound is tight. After 65536 calls the first key comes round again, for a call of ours or a peer's; when the
   * circuit that had it first is closed once more, the new one is dropped from the table although it is live. If it was
   * a peer's, the maps disagree from then on and the peer's Connect Request is still given to it.
   */
  lemma SecondLapBreaks(peer: Option<Peer>) returns (ms: seq<Manager>, es: seq<Event>)
    ensures ManagerRun(ms, es) && |es| >= 1
    ensures var n := |es|;
            var before, after, second := ms[n - 1].table, ms[n].table, Circuit(KEYS, KeyAt(0));
            && es[n - 1] == Closed(Circuit(0, KeyAt(0))) && after.minted == KEYS + 1
            && Live(before, second) && !Live(after, second)
            && (peer.Some? ==>
                  !Consistent(after) && peer.value in after.byPeerKey && after.byPeerKey[peer.value] == second)
  {
    ms, es := Calls(KEYS);
    SameKeyAgain();
    TakesFresh(KEYS, peer);
    var e := if peer.None? then Opened(KeyAt(KEYS)) else Connect(peer.value, KeyAt(KEYS));
    ms, es := Extend(ms, es, e, OneLive(KEYS, peer));
    var first := Circuit(0, KeyAt(0));
    SecondIsDropped(KEYS, peer);
    ms, es := Extend(ms, es, Closed(first), Manager(Deregistered(OneLive(KEYS, peer).table, first), KeyAt(KEYS + 1)));
  }
}
