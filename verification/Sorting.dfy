/** Sorting a set of values by a comparator, as an insertion sort. */
module Sorting {

  ghost predicate Swaps<T>(order: (T, T) -> int, a: T, b: T) {
    order(a, b) > 0 ==> order(b, a) <= 0
  }

  ghost predicate Chains<T>(order: (T, T) -> int, a: T, b: T, c: T) {
    order(a, b) <= 0 && order(b, c) <= 0 ==> order(a, c) <= 0
  }

  /** `order` is negative, zero or positive consistently: total both ways and transitive. */
  ghost predicate TotalPreorder<T(!new)>(order: (T, T) -> int) {
    && (forall a, b {:trigger Swaps(order, a, b)} :: Swaps(order, a, b))
    && (forall a, b, c {:trigger Chains(order, a, b, c)} :: Chains(order, a, b, c))
  }

  predicate Distinct<T(==)>(s: seq<T>) {
    forall i, j :: 0 <= i < j < |s| ==> s[i] != s[j]
  }

  predicate Sorted<T>(order: (T, T) -> int, s: seq<T>) {
    forall i, j :: 0 <= i < j < |s| ==> order(s[i], s[j]) <= 0
  }

  /** Where a value goes: after everything that does not come strictly after it. */
  method PlaceOf<T(!new)>(order: (T, T) -> int, s: seq<T>, x: T) returns (i: nat)
    requires TotalPreorder(order)
    ensures i <= |s|
    ensures forall j :: i <= j < |s| ==> order(x, s[j]) <= 0
    ensures i > 0 ==> order(s[i - 1], x) <= 0
  {
    i := |s|;
    while i > 0 && order(s[i - 1], x) > 0
      invariant 0 <= i <= |s|
      invariant forall j :: i <= j < |s| ==> order(x, s[j]) <= 0
    {
      i := i - 1;
      assert Swaps(order, s[i], x);
    }
  }

  lemma InsertedSorted<T(!new)>(order: (T, T) -> int, s: seq<T>, x: T, i: nat)
    requires TotalPreorder(order) && Sorted(order, s) && Distinct(s) && x !in s && i <= |s|
    requires forall j :: i <= j < |s| ==> order(x, s[j]) <= 0
    requires i > 0 ==> order(s[i - 1], x) <= 0
    ensures var r := s[..i] + [x] + s[i..]; Sorted(order, r) && Distinct(r)
  {
    forall j | 0 <= j < i ensures order(s[j], x) <= 0 {
      if j < i - 1 {
        assert Chains(order, s[j], s[i - 1], x);
      }
    }
  }

  method Insert<T(!new)>(order: (T, T) -> int, s: seq<T>, x: T) returns (r: seq<T>)
    requires TotalPreorder(order) && Sorted(order, s) && Distinct(s) && x !in s
    ensures Sorted(order, r) && Distinct(r)
    ensures forall y :: y in r <==> y in s || y == x
  {
    var i := PlaceOf(order, s, x);
    InsertedSorted(order, s, x, i);
    assert s == s[..i] + s[i..];
    r := s[..i] + [x] + s[i..];
  }

  method Sort<T(==, !new)>(elems: set<T>, order: (T, T) -> int) returns (s: seq<T>)
    requires TotalPreorder(order)
    ensures Sorted(order, s) && Distinct(s)
    ensures forall x :: x in s <==> x in elems
  {
    s := [];
    var todo := elems;
    while todo != {}
      invariant todo <= elems
      invariant Sorted(order, s) && Distinct(s)
      invariant forall x :: x in s <==> x in elems && x !in todo
      decreases todo
    {
      var x :| x in todo;
      todo := todo - {x};
      s := Insert(order, s, x);
    }
  }

  lemma {:induction false} DistinctSize<T>(s: seq<T>, elems: set<T>)
    requires Distinct(s) && forall x :: x in s <==> x in elems
    ensures |s| == |elems|
    decreases |s|
  {
    if s == [] {
      assert elems == {};
    } else {
      var last := s[|s| - 1];
      assert s[|s| - 1] in elems;
      var init := s[..|s| - 1];
      assert forall x :: x in s <==> x in init || x == last;
      DistinctSize(init, elems - {last});
    }
  }
}
