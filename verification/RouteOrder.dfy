/** The table's orders are total preorders, and cutting a sorted list keeps the best routes. */
module RouteOrders {
  import opened Common
  import opened Callsigns
  import opened RoutingSpec
  import opened Sorting

  /** Every route sits under the key made of its own port and neighbour. */
  predicate KeyedRoutes(routes: map<Via, Route>) {
    forall v :: v in routes ==> v == Via(routes[v].portId, routes[v].neighbour)
  }

  lemma {:induction false} OrdinalSwaps(a: Text, b: Text)
    ensures Ordinal(a, b) == -Ordinal(b, a)
  {
    if a != [] && b != [] && a[0] == b[0] {
      OrdinalSwaps(a[1..], b[1..]);
    }
  }

  /** Dictionary order: `a` is a prefix of `b`, or the first place where they differ has the smaller code in `a`. */
  ghost predicate NotAfter(a: Text, b: Text) {
    a <= b || exists n: nat :: SmallerAt(a, b, n)
  }

  predicate SmallerAt(a: Text, b: Text, n: nat) {
    n < |a| && n < |b| && a[..n] == b[..n] && a[n] < b[n]
  }

  /** The comparison of texts is that order. */
  lemma {:induction false} OrdinalIs(a: Text, b: Text)
    ensures Ordinal(a, b) <= 0 <==> NotAfter(a, b)
    decreases |a|
  {
    if a != [] && b != [] {
      if a[0] == b[0] {
        OrdinalIs(a[1..], b[1..]);
        TailNotAfter(a, b);
      } else {
        assert a[0] < b[0] ==> SmallerAt(a, b, 0);
        assert forall n: nat :: SmallerAt(a, b, n) && n > 0 ==> a[0] == a[..n][0] == b[..n][0] == b[0];
      }
    }
  }

  lemma TailNotAfter(a: Text, b: Text)
    requires a != [] && b != [] && a[0] == b[0]
    ensures NotAfter(a, b) <==> NotAfter(a[1..], b[1..])
  {
    assert a == [a[0]] + a[1..] && b == [b[0]] + b[1..];
    forall n: nat ensures SmallerAt(a[1..], b[1..], n) <==> SmallerAt(a, b, n + 1) {
      TailSmallerAt(a, b, n);
    }
    assert forall n: nat :: SmallerAt(a, b, n) ==> n > 0 && SmallerAt(a[1..], b[1..], n - 1);
  }

  lemma TailSmallerAt(a: Text, b: Text, n: nat)
    requires a != [] && b != [] && a[0] == b[0]
    ensures SmallerAt(a[1..], b[1..], n) <==> SmallerAt(a, b, n + 1)
  {
    if n + 1 < |a| && n + 1 < |b| {
      assert a[..n + 1] == [a[0]] + a[1..][..n] && b[..n + 1] == [b[0]] + b[1..][..n];
      assert a[..n + 1][1..] == a[1..][..n] && b[..n + 1][1..] == b[1..][..n];
    }
  }

  lemma {:induction false} OrdinalTransitive(a: Text, b: Text, c: Text)
    requires Ordinal(a, b) <= 0 && Ordinal(b, c) <= 0
    ensures Ordinal(a, c) <= 0
    ensures Ordinal(a, b) < 0 || Ordinal(b, c) < 0 ==> Ordinal(a, c) < 0
  {
    if a != [] && b != [] && c != [] && a[0] == b[0] == c[0] {
      OrdinalTransitive(a[1..], b[1..], c[1..]);
    }
  }

  lemma {:induction false} OrdinalZero(a: Text, b: Text)
    ensures Ordinal(a, b) == 0 <==> a == b
  {
    if a != [] && b != [] && a[0] == b[0] {
      OrdinalZero(a[1..], b[1..]);
      assert a == [a[0]] + a[1..] && b == [b[0]] + b[1..];
    }
  }

  /** The canonical text of a callsign identifies it: a base holds no dash, so the dash ends it. */
  lemma TextTellsApart(a: Callsign, b: Callsign)
    requires Valid(a) && Valid(b) && a != b
    ensures TextOf(a) != TextOf(b)
  {
    var s, t := TextOf(a), TextOf(b);
    if s == t {
      SameBase(a, b);
      assert s[|a.base|..] == Suffix(a.ssid) && t[|b.base|..] == Suffix(b.ssid);
      SuffixTellsApart(a.ssid, b.ssid);
    }
  }

  lemma SuffixTellsApart(a: nat, b: nat)
    requires a <= 15 && b <= 15 && Suffix(a) == Suffix(b)
    ensures a == b
  {
    var s, t := Suffix(a), Suffix(b);
    if a > 0 && b > 0 {
      assert s[|s| - 1] == t[|t| - 1];
    }
  }

  lemma SameBase(a: Callsign, b: Callsign)
    requires Valid(a) && Valid(b) && TextOf(a) == TextOf(b)
    ensures a.base == b.base
  {
    var s, t := TextOf(a), TextOf(b);
    DashAt(a);
    DashAt(b);
    forall i | 0 <= i < |a.base| && i < |b.base| ensures a.base[i] == b.base[i] {
      assert s[i] == t[i];
    }
    assert |a.base| == |b.base|;
  }

  /** A text is its base, then nothing or a dash. */
  lemma DashAt(c: Callsign)
    requires Valid(c)
    ensures |TextOf(c)| >= |c.base| && forall i :: 0 <= i < |c.base| ==> TextOf(c)[i] == c.base[i]
    ensures |TextOf(c)| > |c.base| ==> TextOf(c)[|c.base|] == 0x2d
  {
  }

  lemma PortsSwap(o: Settings, a: PortId, b: PortId)
    ensures ComparePorts(o, a, b) == -ComparePorts(o, b, a)
  {
    OrdinalSwaps(a, b);
  }

  lemma PortsTransitive(o: Settings, a: PortId, b: PortId, c: PortId)
    requires ComparePorts(o, a, b) <= 0 && ComparePorts(o, b, c) <= 0
    ensures ComparePorts(o, a, c) <= 0
    ensures ComparePorts(o, a, b) < 0 || ComparePorts(o, b, c) < 0 ==> ComparePorts(o, a, c) < 0
  {
    if o.rank.None? {
      OrdinalTransitive(a, b, c);
    }
  }

  lemma OrderSwaps(o: Settings, a: Route, b: Route)
    ensures RouteOrder(o, a, b) == -RouteOrder(o, b, a)
  {
    PortsSwap(o, a.portId, b.portId);
    OrdinalSwaps(TextOf(a.neighbour), TextOf(b.neighbour));
  }

  /** Any two routes compare one way or the other. */
  lemma OrderTotal(o: Settings, a: Route, b: Route)
    ensures RouteOrder(o, a, b) <= 0 || RouteOrder(o, b, a) <= 0
    ensures RouteOrder(o, a, b) > 0 ==> RouteOrder(o, b, a) < 0
  {
    OrderSwaps(o, a, b);
  }

  lemma OrderTransitive(o: Settings, a: Route, b: Route, c: Route)
    requires RouteOrder(o, a, b) <= 0 && RouteOrder(o, b, c) <= 0
    ensures RouteOrder(o, a, c) <= 0
  {
    if a.quality == b.quality == c.quality {
      PortsTransitive(o, a.portId, b.portId, c.portId);
      if ComparePorts(o, a.portId, b.portId) == 0 && ComparePorts(o, b.portId, c.portId) == 0 {
        PortsSwap(o, a.portId, b.portId);
        PortsSwap(o, b.portId, c.portId);
        PortsSwap(o, a.portId, c.portId);
        PortsTransitive(o, c.portId, b.portId, a.portId);
        OrdinalTransitive(TextOf(a.neighbour), TextOf(b.neighbour), TextOf(c.neighbour));
      }
    }
  }

  lemma RouteOrderSorts(o: Settings)
    ensures TotalPreorder((a, b) => RouteOrder(o, a, b))
  {
    var order := (a, b) => RouteOrder(o, a, b);
    forall a, b ensures Swaps(order, a, b) {
      OrderTotal(o, a, b);
    }
    forall a, b, c ensures Chains(order, a, b, c) {
      if order(a, b) <= 0 && order(b, c) <= 0 {
        OrderTransitive(o, a, b, c);
      }
    }
  }

  /** Keep the best routes up to the cap. */
  method EnforceRouteCap(o: Settings, routes: map<Via, Route>) returns (kept: map<Via, Route>)
    requires KeyedRoutes(routes)
    ensures Capped(o, routes, kept)
  {
    if |routes| <= o.maxRoutes {
      return routes;
    }
    RouteOrderSorts(o);
    var order := (a, b) => RouteOrder(o, a, b);
    var best := Sort(routes.Values, order);
    ValuesCount(routes);
    DistinctSize(best, routes.Values);
    kept := TakeFirst(routes, best, o.maxRoutes);
    assert |kept| == |kept.Keys|;
    BestAreKept(o, routes, best, o.maxRoutes, kept);
  }

  lemma {:induction false} ValuesCount(routes: map<Via, Route>)
    requires KeyedRoutes(routes)
    ensures |routes.Values| == |routes|
    decreases |routes|
  {
    if routes != map[] {
      var v :| v in routes;
      var rest := routes - {v};
      ValuesCount(rest);
      assert forall w :: w in rest ==> routes[w] == rest[w];
      assert forall w :: w in routes ==> w == v || w in rest;
      assert routes.Values == rest.Values + {routes[v]};
      assert routes[v] !in rest.Values;
    }
  }

  /** `r` is among the first `n` of the list. */
  predicate Among<T(==)>(best: seq<T>, n: nat, r: T)
    requires n <= |best|
  {
    exists i :: 0 <= i < n && best[i] == r
  }

  lemma AmongMore<T>(best: seq<T>, n: nat, r: T)
    requires n < |best|
    ensures Among(best, n + 1, r) <==> Among(best, n, r) || r == best[n]
  {
  }

  /** Rebuild a map of the first `n` listed routes, each under its own key. */
  method TakeFirst(routes: map<Via, Route>, best: seq<Route>, n: nat) returns (kept: map<Via, Route>)
    requires KeyedRoutes(routes)
    requires Distinct(best) && (forall r :: r in best ==> r in routes.Values) && n <= |best|
    ensures TakenSoFar(routes, best, n, kept)
  {
    kept := map[];
    for i := 0 to n
      invariant TakenSoFar(routes, best, i, kept)
    {
      var r := best[i];
      TakesOne(routes, best, i, kept);
      kept := kept[Via(r.portId, r.neighbour) := r];
    }
  }

  /** `kept` holds exactly the first `i` of the listed routes, unchanged. */
  ghost predicate TakenSoFar(routes: map<Via, Route>, best: seq<Route>, i: nat, kept: map<Via, Route>)
    requires i <= |best|
  {
    && |kept.Keys| == i
    && (forall v :: v in kept ==> v in routes && kept[v] == routes[v])
    && (forall v :: v in routes ==> (v in kept <==> Among(best, i, routes[v])))
  }

  lemma TakesOne(routes: map<Via, Route>, best: seq<Route>, i: nat, kept: map<Via, Route>)
    requires KeyedRoutes(routes) && Distinct(best) && i < |best| && best[i] in routes.Values
    requires TakenSoFar(routes, best, i, kept)
    ensures TakenSoFar(routes, best, i + 1, kept[Via(best[i].portId, best[i].neighbour) := best[i]])
  {
    var r := best[i];
    var w := Via(r.portId, r.neighbour);
    NewInList(best, i);
    assert w in routes && routes[w] == r;
    AddedKey(kept, w, r);
    forall v | v in routes ensures v in kept[w := r] <==> Among(best, i + 1, routes[v]) {
      AmongMore(best, i, routes[v]);
      SameKey(routes, v, w);
    }
  }

  lemma NewInList<T>(best: seq<T>, i: nat)
    requires Distinct(best) && i < |best|
    ensures !Among(best, i, best[i])
  {
  }

  lemma AddedKey<K, V>(kept: map<K, V>, w: K, r: V)
    requires w !in kept
    ensures |kept[w := r].Keys| == |kept.Keys| + 1
  {
    assert kept[w := r].Keys == kept.Keys + {w};
  }

  /** A route has one key. */
  lemma SameKey(routes: map<Via, Route>, v: Via, w: Via)
    requires KeyedRoutes(routes) && v in routes && w in routes
    ensures routes[v] == routes[w] <==> v == w
  {
  }

  /** No route after the first `n` of a sorted list outranks one of those. */
  lemma BestAreKept(o: Settings, routes: map<Via, Route>, best: seq<Route>, n: nat, kept: map<Via, Route>)
    requires n <= |best| && forall i, j :: 0 <= i < j < |best| ==> RouteOrder(o, best[i], best[j]) <= 0
    requires forall v :: v in routes ==> routes[v] in best
    requires TakenSoFar(routes, best, n, kept)
    ensures forall v, e :: v in kept && e in routes && e !in kept ==> RouteOrder(o, routes[v], routes[e]) <= 0
  {
    forall v, e | v in kept && e in routes && e !in kept ensures RouteOrder(o, routes[v], routes[e]) <= 0 {
      EarlierIsBetter(o, best, n, routes[v], routes[e]);
    }
  }

  lemma EarlierIsBetter(o: Settings, best: seq<Route>, n: nat, a: Route, b: Route)
    requires n <= |best| && forall i, j :: 0 <= i < j < |best| ==> RouteOrder(o, best[i], best[j]) <= 0
    requires Among(best, n, a) && !Among(best, n, b) && b in best
    ensures RouteOrder(o, a, b) <= 0
  {
    var i :| 0 <= i < n && best[i] == a;
    var j :| 0 <= j < |best| && best[j] == b;
    assert i < j;
  }

  // ---- Advertised entries ----------------------------------------------------------------------------------

  lemma ListedOrderSorts()
    ensures TotalPreorder(ListedOrder)
  {
    forall a: Listed, b: Listed ensures Swaps(ListedOrder, a, b) {
      OrdinalSwaps(TextOf(a.rip.destination), TextOf(b.rip.destination));
    }
    forall a: Listed, b: Listed, c: Listed ensures Chains(ListedOrder, a, b, c) {
      if ListedOrder(a, b) <= 0 && ListedOrder(b, c) <= 0 && a.timeMs == b.timeMs == c.timeMs {
        OrdinalTransitive(TextOf(a.rip.destination), TextOf(b.rip.destination), TextOf(c.rip.destination));
      }
    }
  }
}
