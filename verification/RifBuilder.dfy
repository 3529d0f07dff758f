/** Building the INP3 frame for one neighbour out of the table. */
module RifBuilder {
  import opened Common
  import opened Callsigns
  import opened Inp3Rif
  import opened RoutingSpec
  import opened RouteOrders
  import opened Sorting

  /** The best time metric among the routes, and whether any route at all goes via `target`. */
  method BestTime(routes: map<Via, Route>, target: Callsign) returns (best: Option<Metric>, poison: bool)
    ensures best.Some? <==> HasTime(routes)
    ensures best.Some? ==> IsBest(routes, best.value)
    ensures poison == GoesVia(routes, target)
  {
    best, poison := None, false;
    var todo := routes.Keys;
    while todo != {}
      invariant todo <= routes.Keys
      invariant poison <==> exists v :: v in routes && v !in todo && routes[v].neighbour == target
      invariant best.Some? ==> exists v :: v in routes && routes[v].inp3 == best
      invariant forall v :: v in routes && v !in todo && routes[v].inp3.Some? ==>
                  best.Some? && best.value.targetTimeMs <= routes[v].inp3.value.targetTimeMs
      decreases todo
    {
      var v :| v in todo;
      var r := routes[v];
      if r.neighbour == target {
        poison := true;
      }
      if r.inp3.Some? && (best.None? || r.inp3.value.targetTimeMs < best.value.targetTimeMs) {
        best := r.inp3;
      }
      todo := todo - {v};
    }
  }

  /** The list with the destinations in `todo` still to visit. */
  ghost predicate ListedSoFar(t: Table, my: Callsign, target: Callsign, todo: set<Callsign>, listed: seq<Listed>) {
    && Named(listed) == Timed(t, my) - todo
    && Ordered(listed) && Distinct(listed) && Sorted(ListedOrder, listed)
    && forall a :: a in listed ==> Advertises(RoutesTo(t, a.rip.destination), target, a.rip.destination, a)
  }

  /** One entry per destination with a time-route. */
  method ListTimed(t: Table, my: Callsign, target: Callsign) returns (listed: seq<Listed>)
    ensures ListsTimed(t, my, target, listed)
  {
    listed := [];
    var todo := t.destinations.Keys;
    assert Timed(t, my) - todo == {};
    while todo != {}
      invariant todo <= t.destinations.Keys && ListedSoFar(t, my, target, todo, listed)
      decreases todo
    {
      var d :| d in todo;
      listed := ListOne(t, my, target, todo, listed, d);
      todo := todo - {d};
    }
  }

  /** The body of that loop. */
  method ListOne(t: Table, my: Callsign, target: Callsign, ghost todo: set<Callsign>, listed: seq<Listed>, d: Callsign)
    returns (longer: seq<Listed>)
    requires d in todo && todo <= t.destinations.Keys && ListedSoFar(t, my, target, todo, listed)
    ensures ListedSoFar(t, my, target, todo - {d}, longer)
  {
    var best, poison := BestTime(t.destinations[d].routes, target);
    if d == my || best.None? {
      assert Timed(t, my) - todo == Timed(t, my) - (todo - {d});
      return listed;
    }
    var m := best.value;
    var a := Listed(Rip(d, m.hopCount, if poison then HORIZON_MS else Quantise(m.targetTimeMs), []), m.targetTimeMs);
    ListedOrderSorts();
    assert a.rip.destination !in Named(listed);
    longer := Insert(ListedOrder, listed, a);
    Apart(listed, longer, a);
    assert Timed(t, my) - (todo - {d}) == Named(listed) + {d};
  }

  lemma Apart(before: seq<Listed>, after: seq<Listed>, a: Listed)
    requires Ordered(before) && a.rip.destination !in Named(before)
    requires Distinct(after) && Sorted(ListedOrder, after) && forall x :: x in after <==> x in before || x == a
    ensures Ordered(after) && Named(after) == Named(before) + {a.rip.destination}
  {
    forall i, j | 0 <= i < j < |after| ensures after[i].rip.destination != after[j].rip.destination {
      assert after[i] in after && after[j] in after;
      if after[i] != a && after[j] != a {
        var k :| 0 <= k < |before| && before[k] == after[i];
        var m :| 0 <= m < |before| && before[m] == after[j];
        assert k < m || m < k;
      }
    }
  }

  /** One horizon entry per withdrawn destination that is not listed. */
  method ListGone(t: Table, my: Callsign, withdrawn: set<Callsign>, listed: seq<Listed>) returns (gone: seq<Listed>)
    requires Named(listed) == Timed(t, my)
    ensures ListsGone(t, my, withdrawn, gone)
  {
    var emitted := Named(listed);
    var entries := set d | d in withdrawn && d != my && d !in emitted :: Listed(Withdrawal(d), 0);
    ListedOrderSorts();
    gone := Sort(entries, ListedOrder);
    forall d | d in withdrawn - Timed(t, my) - {my} ensures d in Named(gone) {
      assert Listed(Withdrawal(d), 0) in gone;
    }
    assert forall i :: 0 <= i < |gone| ==> gone[i] in gone;
  }

  function RipsOf(listed: seq<Listed>): (rips: seq<Rip>)
    ensures |rips| == |listed| && forall i :: 0 <= i < |listed| ==> rips[i] == listed[i].rip
  {
    seq<Rip>(|listed|, i requires 0 <= i < |listed| => listed[i].rip)
  }

  lemma JoinedIsArranged(my: Callsign, listed: seq<Listed>, gone: seq<Listed>)
    ensures Arranged([OwnRip(my)] + RipsOf(listed) + RipsOf(gone), my, listed, gone)
  {
    var own, mid, end := [OwnRip(my)], RipsOf(listed), RipsOf(gone);
    Placed(own, mid, end);
  }

  /** Where the parts of a joined sequence lie. */
  lemma Placed<T>(a: seq<T>, b: seq<T>, c: seq<T>)
    ensures |a + b + c| == |a| + |b| + |c|
    ensures forall i :: 0 <= i < |a| ==> (a + b + c)[i] == a[i]
    ensures forall i :: 0 <= i < |b| ==> (a + b + c)[|a| + i] == b[i]
    ensures forall i :: 0 <= i < |c| ==> (a + b + c)[|a| + |b| + i] == c[i]
  {
  }

  /** The frame `my` sends toward `target`, after draining `withdrawn`. */
  method BuildRif(t: Table, my: Callsign, target: Callsign, withdrawn: set<Callsign>) returns (rips: seq<Rip>)
    ensures exists listed, gone :: IsRif(t, my, target, withdrawn, rips, listed, gone)
  {
    var listed := ListTimed(t, my, target);
    var gone := ListGone(t, my, withdrawn, listed);
    JoinedIsArranged(my, listed, gone);
    rips := [OwnRip(my)] + RipsOf(listed) + RipsOf(gone);
    assert IsRif(t, my, target, withdrawn, rips, listed, gone);
  }
}
