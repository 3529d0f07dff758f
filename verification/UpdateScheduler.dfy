/** When INP3 frames are fanned out: marks, debounce, the periodic refresh, and what every run guarantees. */
module UpdateScheduler {
  import opened Common
  import opened Callsigns
  import opened RoutingSpec
  import opened RouteOrders
  import opened Sorting

  datatype Class = Negative | Positive

  datatype Reason = Triggered | Periodic

  datatype Intent = Intent(neighbour: Callsign, reason: Reason)

  /** The timing knobs, in milliseconds. */
  datatype Timing = Timing(rifInterval: int, positiveDebounce: int)

  /** `anchor` is the time of the earliest positive mark still pending. Times count from construction. */
  datatype State = State(dirty: map<Callsign, Class>, targets: seq<Callsign>, anchor: Option<int>, lastPeriodic: int)

  const START := State(map[], [], None, 0)

  function TextOrder(a: Callsign, b: Callsign): int {
    Ordinal(TextOf(a), TextOf(b))
  }

  lemma TextOrderSorts()
    ensures TotalPreorder(TextOrder)
  {
    forall a, b ensures Swaps(TextOrder, a, b) {
      OrdinalSwaps(TextOf(a), TextOf(b));
    }
    forall a, b, c ensures Chains(TextOrder, a, b, c) {
      if TextOrder(a, b) <= 0 && TextOrder(b, c) <= 0 {
        OrdinalTransitive(TextOf(a), TextOf(b), TextOf(c));
      }
    }
  }

  // ---- Operations ------------------------------------------------------------------------------------------

  function MarkedAt(s: State, d: Callsign, c: Class, now: int): State {
    if d in s.dirty then if c.Negative? then s.(dirty := s.dirty[d := Negative]) else s
    else s.(dirty := s.dirty[d := c], anchor := if c.Positive? && s.anchor.None? then Some(now) else s.anchor)
  }

  predicate HasNegative(s: State) {
    exists d :: d in s.dirty && s.dirty[d].Negative?
  }

  /** Why a tick fans out, if it does. */
  function Due(o: Timing, s: State, now: int): Option<Reason> {
    if now - s.lastPeriodic >= o.rifInterval then Some(Periodic)
    else if HasNegative(s) || (s.anchor.Some? && now - s.anchor.value >= o.positiveDebounce) then Some(Triggered)
    else None
  }

  function Ticked(o: Timing, s: State, now: int): State {
    var due := Due(o, s, now);
    if due.None? then s
    else State(map[], s.targets, None, if due.value.Periodic? then now else s.lastPeriodic)
  }

  /** One intent for every current target. */
  function Intents(targets: seq<Callsign>, reason: Reason): (r: seq<Intent>)
    ensures |r| == |targets| && forall i :: 0 <= i < |r| ==> r[i] == Intent(targets[i], reason)
  {
    seq(|targets|, i requires 0 <= i < |targets| => Intent(targets[i], reason))
  }

  function Raised(o: Timing, s: State, now: int): seq<Intent> {
    var due := Due(o, s, now);
    if due.None? then [] else Intents(s.targets, due.value)
  }

  class Inp3UpdateScheduler {
    const o: Timing
    var dirty: map<Callsign, Class>
    var targetNeighbours: seq<Callsign>
    var earliestPositiveMark: Option<int>
    var lastPeriodic: int

    constructor (o: Timing)
      ensures this.o == o && Value() == START
    {
      this.o := o;
      dirty, targetNeighbours, earliestPositiveMark, lastPeriodic := map[], [], None, 0;
    }

    function Value(): State
      reads this
    {
      State(dirty, targetNeighbours, earliestPositiveMark, lastPeriodic)
    }

    /** Replace the targets: the distinct ones, in callsign order. */
    method SetTargetNeighbours(capable: seq<Callsign>)
      modifies this`targetNeighbours
      ensures Distinct(targetNeighbours) && Sorted(TextOrder, targetNeighbours)
      ensures forall c :: c in targetNeighbours <==> c in capable
    {
      TextOrderSorts();
      var seen := set c | c in capable;
      targetNeighbours := Sort(seen, TextOrder);
    }

    method Mark(d: Callsign, c: Class, now: int)
      modifies this
      ensures Value() == MarkedAt(old(Value()), d, c, now)
    {
      if d in dirty {
        if dirty[d].Positive? && c.Negative? {
          dirty := dirty[d := Negative];
        }
        assert dirty == MarkedAt(old(Value()), d, c, now).dirty;
        return;
      }
      dirty := dirty[d := c];
      if c.Positive? && earliestPositiveMark.None? {
        earliestPositiveMark := Some(now);
      }
    }

    /** The intents are raised by the caller after this returns, so what the sink marks is a later operation. */
    method Tick(now: int) returns (toRaise: seq<Intent>)
      modifies this
      ensures Value() == Ticked(o, old(Value()), now) && toRaise == Raised(o, old(Value()), now)
    {
      toRaise := [];
      var periodicDue := now - lastPeriodic >= o.rifInterval;
      var negativeDue := false;
      if !periodicDue {
        negativeDue := AnyNegative(dirty);
      }
      var positiveDue := !periodicDue && !negativeDue && earliestPositiveMark.Some?
                         && now - earliestPositiveMark.value >= o.positiveDebounce;
      if periodicDue || negativeDue || positiveDue {
        var reason := if periodicDue then Periodic else Triggered;
        for i := 0 to |targetNeighbours|
          invariant |toRaise| == i && forall j :: 0 <= j < i ==> toRaise[j] == Intent(targetNeighbours[j], reason)
          invariant Value() == old(Value())
        {
          toRaise := toRaise + [Intent(targetNeighbours[i], reason)];
        }
        dirty, earliestPositiveMark := map[], None;
        if periodicDue {
          lastPeriodic := now;
        }
      }
    }
  }

  method AnyNegative(dirty: map<Callsign, Class>) returns (found: bool)
    ensures found == exists d :: d in dirty && dirty[d].Negative?
  {
    var todo := dirty.Keys;
    while todo != {}
      invariant todo <= dirty.Keys && forall d :: d in dirty && d !in todo ==> dirty[d].Positive?
      decreases todo
    {
      var d :| d in todo;
      if dirty[d].Negative? {
        return true;
      }
      todo := todo - {d};
    }
    return false;
  }

  // ---- Runs ------------------------------------------------------------------------------------------------

  datatype Event =
    | SetTargets(targets: seq<Callsign>)
    | Mark(destination: Callsign, cls: Class, now: int)
    | Tick(now: int)

  function Next(o: Timing, s: State, e: Event): State {
    match e
    case SetTargets(targets) => s.(targets := targets)
    case Mark(d, c, now) => MarkedAt(s, d, c, now)
    case Tick(now) => Ticked(o, s, now)
  }

  /** The states of a run, one event between each two. */
  predicate Run(o: Timing, ss: seq<State>, es: seq<Event>) {
    |ss| == |es| + 1 && ss[0] == START && forall i :: 0 <= i < |es| ==> ss[i + 1] == Next(o, ss[i], es[i])
  }

  predicate FansOut(o: Timing, s: State, e: Event) {
    e.Tick? && Due(o, s, e.now).Some?
  }

  /** Nothing pending is ever dropped except by a fan-out, and a positive one is anchored. */
  lemma NextKeepsPending(o: Timing, s: State, e: Event, d: Callsign)
    requires d in s.dirty && !FansOut(o, s, e)
    ensures d in Next(o, s, e).dirty && (s.dirty[d].Negative? ==> Next(o, s, e).dirty[d].Negative?)
    ensures s.anchor.Some? ==> Next(o, s, e).anchor == s.anchor
  {
  }

  lemma {:induction false} PendingUntilFanOut(o: Timing, ss: seq<State>, es: seq<Event>, i: nat, j: nat, d: Callsign)
    requires Run(o, ss, es) && i <= j <= |es| && d in ss[i].dirty
    requires forall k :: i <= k < j ==> !FansOut(o, ss[k], es[k])
    ensures d in ss[j].dirty && (ss[i].dirty[d].Negative? ==> ss[j].dirty[d].Negative?)
    ensures ss[i].anchor.Some? ==> ss[j].anchor == ss[i].anchor
    decreases j - i
  {
    if i < j {
      PendingUntilFanOut(o, ss, es, i, j - 1, d);
      NextKeepsPending(o, ss[j - 1], es[j - 1], d);
    }
  }

  /** The tick raises an intent for every target there is, and for no other callsign. */
  ghost predicate ReachesAll(o: Timing, s: State, now: int) {
    forall n :: n in s.targets <==> exists reason :: Intent(n, reason) in Raised(o, s, now)
  }

  lemma FanOutReachesAll(o: Timing, s: State, e: Event)
    requires FansOut(o, s, e)
    ensures ReachesAll(o, s, e.now)
  {
    var due := Due(o, s, e.now);
    forall n | n in s.targets ensures exists reason :: Intent(n, reason) in Raised(o, s, e.now) {
      var k :| 0 <= k < |s.targets| && s.targets[k] == n;
      assert Raised(o, s, e.now)[k] == Intent(n, due.value);
    }
  }

  /** A negative mark, a withdrawal or an upgrade reaches every target there is at the very next tick. */
  lemma NegativeGoesOutNextTick(o: Timing, ss: seq<State>, es: seq<Event>, i: nat, j: nat)
    requires Run(o, ss, es) && i < j < |es| && es[i].Mark? && es[i].cls.Negative? && es[j].Tick?
    requires forall k :: i < k < j ==> !es[k].Tick?
    ensures FansOut(o, ss[j], es[j]) && ReachesAll(o, ss[j], es[j].now)
  {
    var d := es[i].destination;
    PendingUntilFanOut(o, ss, es, i + 1, j, d);
    assert d in ss[j].dirty && ss[j].dirty[d].Negative?;
    FanOutReachesAll(o, ss[j], es[j]);
  }

  /** Marks and ticks carry a clock that does not go back. */
  predicate Monotone(es: seq<Event>) {
    forall i, j :: 0 <= i < j < |es| && !es[i].SetTargets? && !es[j].SetTargets? ==> es[i].now <= es[j].now
  }

  /** A pending positive mark is anchored at or before every later time. */
  predicate Anchored(s: State, now: int) {
    && (s.anchor.Some? ==> s.anchor.value <= now)
    && (forall d :: d in s.dirty && s.dirty[d].Positive? ==> s.anchor.Some?)
  }

  lemma {:induction false} AlwaysAnchored(o: Timing, ss: seq<State>, es: seq<Event>, i: nat, now: int)
    requires Run(o, ss, es) && i <= |es|
    requires forall k :: 0 <= k < i && !es[k].SetTargets? ==> es[k].now <= now
    ensures Anchored(ss[i], now)
  {
    if i > 0 {
      AlwaysAnchored(o, ss, es, i - 1, now);
    }
  }

  /** A positive mark reaches every target there then is by the first tick at least one debounce after it. */
  lemma PositiveGoesOutAfterDebounce(o: Timing, ss: seq<State>, es: seq<Event>, i: nat, j: nat)
    requires Run(o, ss, es) && Monotone(es) && i < j < |es| && es[i].Mark? && es[j].Tick?
    requires es[j].now - es[i].now >= o.positiveDebounce
    ensures exists k :: i < k <= j && FansOut(o, ss[k], es[k]) && ReachesAll(o, ss[k], es[k].now)
  {
    forall k | i < k <= j && FansOut(o, ss[k], es[k]) ensures ReachesAll(o, ss[k], es[k].now) {
      FanOutReachesAll(o, ss[k], es[k]);
    }
    if forall k :: i < k < j ==> !FansOut(o, ss[k], es[k]) {
      var d := es[i].destination;
      AlwaysAnchored(o, ss, es, i + 1, es[i].now);
      PendingUntilFanOut(o, ss, es, i + 1, j, d);
      assert Anchored(ss[i + 1], es[i].now);
      assert FansOut(o, ss[j], es[j]);
    }
  }

  lemma {:induction false} LastPeriodicGrows(o: Timing, ss: seq<State>, es: seq<Event>, i: nat, j: nat)
    requires Run(o, ss, es) && Monotone(es) && i < j < |ss| && es[i].Tick?
    requires Due(o, ss[i], es[i].now) == Some(Periodic)
    ensures es[i].now <= ss[j].lastPeriodic
    decreases j
  {
    if j > i + 1 {
      LastPeriodicGrows(o, ss, es, i, j - 1);
    }
  }

  /** Two periodic refreshes are at least one interval apart, and the first is one interval after the start. */
  lemma PeriodicSpacing(o: Timing, ss: seq<State>, es: seq<Event>, i: nat, j: nat)
    requires Run(o, ss, es) && Monotone(es) && i < j < |es| && es[i].Tick? && es[j].Tick?
    requires Due(o, ss[i], es[i].now) == Some(Periodic) && Due(o, ss[j], es[j].now) == Some(Periodic)
    ensures es[j].now - es[i].now >= o.rifInterval
  {
    LastPeriodicGrows(o, ss, es, i, j);
  }

  /** Tick `k` made a periodic refresh. */
  predicate RefreshesAt(o: Timing, ss: seq<State>, es: seq<Event>, k: nat)
    requires k < |es| <= |ss|
  {
    es[k].Tick? && Due(o, ss[k], es[k].now) == Some(Periodic)
  }

  /** The last periodic refresh is remembered; before the first it is the start, time 0. */
  lemma {:induction false} LastPeriodicIs(o: Timing, ss: seq<State>, es: seq<Event>, j: nat)
    requires Run(o, ss, es) && j <= |es|
    ensures ss[j].lastPeriodic == 0 || exists k :: 0 <= k < j && RefreshesAt(o, ss, es, k)
                                                    && es[k].now == ss[j].lastPeriodic
  {
    if j > 0 {
      LastPeriodicIs(o, ss, es, j - 1);
      if RefreshesAt(o, ss, es, j - 1) {
        assert es[j - 1].now == ss[j].lastPeriodic;
      }
    }
  }

  /**
   * A tick makes a periodic refresh exactly when an interval has passed since the start and since every earlier one;
   * and the refresh reaches every target there then is.
   */
  lemma RefreshesIff(o: Timing, ss: seq<State>, es: seq<Event>, j: nat)
    requires Run(o, ss, es) && Monotone(es) && j < |es| && es[j].Tick?
    requires forall k :: 0 <= k < |es| && !es[k].SetTargets? ==> es[k].now >= 0
    ensures RefreshesAt(o, ss, es, j) <==>
              es[j].now >= o.rifInterval
              && forall k :: 0 <= k < j && RefreshesAt(o, ss, es, k) ==> es[j].now - es[k].now >= o.rifInterval
    ensures RefreshesAt(o, ss, es, j) ==> forall n :: n in ss[j].targets ==>
              Intent(n, Periodic) in Raised(o, ss[j], es[j].now)
  {
    LastPeriodicIs(o, ss, es, j);
    LastPeriodicStarts(o, ss, es, j);
    forall k | 0 <= k < j && RefreshesAt(o, ss, es, k) ensures es[k].now <= ss[j].lastPeriodic {
      LastPeriodicGrows(o, ss, es, k, j);
    }
    if RefreshesAt(o, ss, es, j) {
      forall n | n in ss[j].targets ensures Intent(n, Periodic) in Raised(o, ss[j], es[j].now) {
        var k :| 0 <= k < |ss[j].targets| && ss[j].targets[k] == n;
        assert Raised(o, ss[j], es[j].now)[k] == Intent(n, Periodic);
      }
    }
  }

  lemma {:induction false} LastPeriodicStarts(o: Timing, ss: seq<State>, es: seq<Event>, j: nat)
    requires Run(o, ss, es) && j <= |es|
    requires forall k :: 0 <= k < |es| && !es[k].SetTargets? ==> es[k].now >= 0
    ensures ss[j].lastPeriodic >= 0
  {
    if j > 0 {
      LastPeriodicStarts(o, ss, es, j - 1);
    }
  }

  /** No fan-out strictly between `i` and `j`. */
  predicate QuietBetween(o: Timing, ss: seq<State>, es: seq<Event>, i: nat, j: nat)
    requires i <= j <= |es| <= |ss|
  {
    forall k :: i < k < j ==> !FansOut(o, ss[k], es[k])
  }

  /** Mark `i` was made before event `j`, with no fan-out since. */
  predicate MarkedSince(o: Timing, ss: seq<State>, es: seq<Event>, i: nat, j: nat)
    requires j <= |es| <= |ss|
  {
    i < j && es[i].Mark? && QuietBetween(o, ss, es, i, j)
  }

  /** What is pending, and since when, goes back to marks made since the last fan-out. */
  lemma {:induction false} PendingWasMarked(o: Timing, ss: seq<State>, es: seq<Event>, j: nat)
    requires Run(o, ss, es) && j <= |es|
    ensures HasNegative(ss[j]) ==> exists i: nat :: MarkedSince(o, ss, es, i, j) && es[i].cls.Negative?
    ensures ss[j].anchor.Some? ==>
              exists i: nat :: MarkedSince(o, ss, es, i, j) && es[i].cls.Positive? && es[i].now == ss[j].anchor.value
  {
    if j > 0 {
      var m := j - 1;
      PendingWasMarked(o, ss, es, m);
      if es[m].Mark? {
        assert MarkedSince(o, ss, es, m, j);
      }
      if !FansOut(o, ss[m], es[m]) {
        if i: nat :| MarkedSince(o, ss, es, i, m) && es[i].cls.Negative? {
          assert MarkedSince(o, ss, es, i, j);
        }
        if ss[m].anchor.Some? {
          var i: nat :| MarkedSince(o, ss, es, i, m) && es[i].cls.Positive? && es[i].now == ss[m].anchor.value;
          assert MarkedSince(o, ss, es, i, j);
        }
      }
    }
  }

  /**
   * A triggered fan-out always carries a mark made since the fan-out before it: a negative one, or a positive one that
   * has waited for the debounce.
   */
  lemma TriggeredOnlyByMarks(o: Timing, ss: seq<State>, es: seq<Event>, j: nat)
    requires Run(o, ss, es) && j < |es| && es[j].Tick? && Due(o, ss[j], es[j].now) == Some(Triggered)
    ensures exists i: nat :: MarkedSince(o, ss, es, i, j)
              && (es[i].cls.Negative? || es[j].now - es[i].now >= o.positiveDebounce)
  {
    PendingWasMarked(o, ss, es, j);
  }
}
