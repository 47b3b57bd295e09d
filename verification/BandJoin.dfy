/** The batch meaning of a time-window correlation: all pairs of a left and a right event whose
    timestamps differ by at most the window, and the facts both streaming correlators need to
    compute it one arrival at a time while old events are being evicted. */
module BandJoin {
  import opened Values
  import opened EventBuffers

  type Pair = (Event, Event)

  /** A run of a correlator: an event arrives, or the cleanup timer fires at clock `now`. */
  datatype Step = Arrive(event: Event) | Cleanup(now: nat)

  predicate Near(t: nat, u: nat, window: nat) {
    t - u <= window && u - t <= window
  }

  predicate InWindow(a: Event, b: Event, window: nat) {
    Near(a.timestamp, b.timestamp, window)
  }

  /** The events within the window of `e`, in their order. */
  function Within(events: seq<Event>, e: Event, window: nat): seq<Event> {
    if events == [] then []
    else if InWindow(e, events[0], window) then [events[0]] + Within(events[1..], e, window)
    else Within(events[1..], e, window)
  }

  function WithLeft(l: Event, rights: seq<Event>): (pairs: seq<Pair>)
    ensures |pairs| == |rights|
    ensures forall i :: 0 <= i < |rights| ==> pairs[i] == (l, rights[i])
  {
    if rights == [] then [] else [(l, rights[0])] + WithLeft(l, rights[1..])
  }

  function WithRight(lefts: seq<Event>, r: Event): (pairs: seq<Pair>)
    ensures |pairs| == |lefts|
    ensures forall i :: 0 <= i < |lefts| ==> pairs[i] == (lefts[i], r)
  {
    if lefts == [] then [] else [(lefts[0], r)] + WithRight(lefts[1..], r)
  }

  /** The (left, right) pairs of `e` with the events of a buffer that are within its window. */
  function Probe(events: seq<Event>, e: Event, isLeft: bool, window: nat): seq<Pair> {
    if isLeft then WithLeft(e, Within(events, e, window)) else WithRight(Within(events, e, window), e)
  }

  lemma {:induction false} ProbeAppend(events: seq<Event>, x: Event, e: Event, isLeft: bool, window: nat)
    ensures Within(events + [x], e, window) == Within(events, e, window) + if InWindow(e, x, window) then [x] else []
    ensures Probe(events + [x], e, isLeft, window)
         == Probe(events, e, isLeft, window)
              + if !InWindow(e, x, window) then [] else if isLeft then [(e, x)] else [(x, e)]
  {
    if events == [] {
      assert events + [x] == [x];
    } else {
      assert (events + [x])[1..] == events[1..] + [x];
      ProbeAppend(events[1..], x, e, isLeft, window);
    }
  }

  /** The nested-loop join. */
  ghost function Join(lefts: seq<Event>, rights: seq<Event>, window: nat): multiset<Pair> {
    if lefts == [] then multiset{}
    else multiset(WithLeft(lefts[0], Within(rights, lefts[0], window))) + Join(lefts[1..], rights, window)
  }

  // ----- what the join contains

  lemma {:induction false} WithinCount(events: seq<Event>, e: Event, window: nat, x: Event)
    ensures multiset(Within(events, e, window))[x] == if InWindow(e, x, window) then multiset(events)[x] else 0
  {
    if events != [] {
      assert events == [events[0]] + events[1..];
      WithinCount(events[1..], e, window, x);
    }
  }

  lemma {:induction false} WithLeftCount(l: Event, rights: seq<Event>, p: Pair)
    ensures multiset(WithLeft(l, rights))[p] == if p.0 == l then multiset(rights)[p.1] else 0
  {
    if rights != [] {
      var r, tail := rights[0], rights[1..];
      WithLeftCount(l, tail, p);
      assert rights == [r] + tail;
      AddCount(r, tail, p.1);
      AddCount((l, r), WithLeft(l, tail), p);
    }
  }

  lemma {:induction false} WithRightCount(lefts: seq<Event>, r: Event, p: Pair)
    ensures multiset(WithRight(lefts, r))[p] == if p.1 == r then multiset(lefts)[p.0] else 0
  {
    if lefts != [] {
      var l, tail := lefts[0], lefts[1..];
      WithRightCount(tail, r, p);
      assert lefts == [l] + tail;
      AddCount(l, tail, p.0);
      AddCount((l, r), WithRight(tail, r), p);
    }
  }

  /** A pair occurs in the join exactly when it is in the window, once for every way to choose its
      left member among the lefts and its right member among the rights. */
  lemma {:induction false} JoinCount(lefts: seq<Event>, rights: seq<Event>, window: nat, p: Pair)
    ensures Join(lefts, rights, window)[p]
         == if InWindow(p.0, p.1, window) then multiset(lefts)[p.0] * multiset(rights)[p.1] else 0
  {
    if lefts != [] {
      var l, tail := lefts[0], lefts[1..];
      JoinCount(tail, rights, window, p);
      HeadCount(l, rights, window, p);
      assert lefts == [l] + tail;
      AddCount(l, tail, p.0);
      Product(multiset(rights)[p.1], multiset(tail)[p.0], l == p.0, multiset(lefts)[p.0]);
    }
  }

  lemma HeadCount(l: Event, rights: seq<Event>, window: nat, p: Pair)
    ensures multiset(WithLeft(l, Within(rights, l, window)))[p]
         == if InWindow(p.0, p.1, window) && l == p.0 then multiset(rights)[p.1] else 0
  {
    WithLeftCount(l, Within(rights, l, window), p);
    WithinCount(rights, l, window, p.1);
  }

  lemma AddCount<T>(x: T, events: seq<T>, y: T)
    ensures multiset([x] + events)[y] == multiset(events)[y] + if x == y then 1 else 0
  {
    assert multiset([x] + events) == multiset{x} + multiset(events);
  }

  lemma Product(a: nat, b: nat, more: bool, c: nat)
    requires c == b + if more then 1 else 0
    ensures a * c == c * a == a * b + if more then a else 0
  {
  }

  /** Adding a left event adds its pairs with the rights in the window. */
  lemma JoinAddLeft(l: Event, lefts: seq<Event>, rights: seq<Event>, window: nat)
    ensures Join([l] + lefts, rights, window) == multiset(Probe(rights, l, true, window)) + Join(lefts, rights, window)
  {
    assert ([l] + lefts)[1..] == lefts;
  }

  /** Adding a right event adds its pairs with the lefts in the window. */
  lemma {:induction false} JoinAddRight(lefts: seq<Event>, r: Event, rights: seq<Event>, window: nat)
    ensures Join(lefts, [r] + rights, window)
         == multiset(WithRight(Within(lefts, r, window), r)) + Join(lefts, rights, window)
  {
    forall p: Pair
      ensures Join(lefts, [r] + rights, window)[p]
           == (multiset(WithRight(Within(lefts, r, window), r)) + Join(lefts, rights, window))[p]
    {
      JoinAddRightCount(lefts, r, rights, window, p);
    }
  }

  lemma JoinAddRightCount(lefts: seq<Event>, r: Event, rights: seq<Event>, window: nat, p: Pair)
    ensures Join(lefts, [r] + rights, window)[p]
         == multiset(WithRight(Within(lefts, r, window), r))[p] + Join(lefts, rights, window)[p]
  {
    JoinCount(lefts, [r] + rights, window, p);
    JoinCount(lefts, rights, window, p);
    WithRightCount(Within(lefts, r, window), r, p);
    WithinCount(lefts, r, window, p.0);
    AddCount(r, rights, p.1);
    Product(multiset(lefts)[p.0], multiset(rights)[p.1], r == p.1, multiset([r] + rights)[p.1]);
  }

  /** Probing less gives no pair that probing more would not. */
  lemma NewPairsBelow(e: Event, kept: seq<Event>, all: seq<Event>, window: nat)
    requires multiset(kept) <= multiset(all)
    ensures multiset(WithLeft(e, Within(kept, e, window))) <= multiset(WithLeft(e, Within(all, e, window)))
    ensures multiset(WithRight(Within(kept, e, window), e)) <= multiset(WithRight(Within(all, e, window), e))
  {
    forall p: Pair
      ensures multiset(WithLeft(e, Within(kept, e, window)))[p] <= multiset(WithLeft(e, Within(all, e, window)))[p]
      ensures multiset(WithRight(Within(kept, e, window), e))[p] <= multiset(WithRight(Within(all, e, window), e))[p]
    {
      WithLeftCount(e, Within(kept, e, window), p);
      WithLeftCount(e, Within(all, e, window), p);
      WithRightCount(Within(kept, e, window), e, p);
      WithRightCount(Within(all, e, window), e, p);
      WithinCount(kept, e, window, p.0);
      WithinCount(all, e, window, p.0);
      WithinCount(kept, e, window, p.1);
      WithinCount(all, e, window, p.1);
    }
  }

  // ----- eviction

  lemma {:induction false} RetainShrinks(events: seq<Event>, cutoff: nat)
    ensures |Retain(events, cutoff)| <= |events|
    ensures multiset(Retain(events, cutoff)) <= multiset(events)
  {
    if events != [] {
      assert events == [events[0]] + events[1..];
      RetainShrinks(events[1..], cutoff);
    }
  }

  /** The cleanup callbacks drop what is older than the clock minus two windows, in `uint64_t`. */
  function Cutoff(now: nat, window: nat): nat {
    SubU64(now, 2 * window)
  }

  // ----- what a correlator misses that has lost events

  /** The events a cleanup drops, in their order. */
  function Evicted(events: seq<Event>, cutoff: nat): seq<Event> {
    if events == [] then []
    else if events[0].timestamp < cutoff then [events[0]] + Evicted(events[1..], cutoff)
    else Evicted(events[1..], cutoff)
  }

  lemma {:induction false} RetainedOrEvicted(events: seq<Event>, cutoff: nat)
    ensures multiset(events) == multiset(Retain(events, cutoff)) + multiset(Evicted(events, cutoff))
  {
    if events != [] {
      assert events == [events[0]] + events[1..];
      RetainedOrEvicted(events[1..], cutoff);
    }
  }

  lemma WithinOfBag(all: seq<Event>, a: seq<Event>, b: seq<Event>, e: Event, window: nat)
    requires multiset(all) == multiset(a) + multiset(b)
    ensures multiset(Within(all, e, window)) == multiset(Within(a, e, window)) + multiset(Within(b, e, window))
    ensures |Within(all, e, window)| == |Within(a, e, window)| + |Within(b, e, window)|
  {
    hide Within;
    forall x: Event
      ensures multiset(Within(all, e, window))[x]
          == (multiset(Within(a, e, window)) + multiset(Within(b, e, window)))[x]
    {
      WithinCount(all, e, window, x);
      WithinCount(a, e, window, x);
      WithinCount(b, e, window, x);
    }
    BagSize(Within(all, e, window), Within(a, e, window), Within(b, e, window));
  }

  lemma BagSize(all: seq<Event>, a: seq<Event>, b: seq<Event>)
    requires multiset(all) == multiset(a) + multiset(b)
    ensures |all| == |a| + |b|
  {
    assert |multiset(all)| == |multiset(a)| + |multiset(b)|;
  }

  /** Probing what was kept against probing everything, the rest being lost. */
  lemma ProbeMisses(all: seq<Event>, kept: seq<Event>, lost: seq<Event>, e: Event, isLeft: bool, window: nat)
    requires multiset(all) == multiset(kept) + multiset(lost)
    ensures |Probe(all, e, isLeft, window)| == |Probe(kept, e, isLeft, window)| + |Within(lost, e, window)|
    ensures multiset(Probe(kept, e, isLeft, window)) <= multiset(Probe(all, e, isLeft, window))
  {
    hide Within;
    WithinOfBag(all, kept, lost, e, window);
    NewPairsBelow(e, kept, all, window);
  }

  lemma SameSizeSame(a: multiset<Pair>, b: multiset<Pair>)
    requires a <= b
    ensures |a| <= |b| && (|a| == |b| <==> a == b)
  {
    assert b == a + (b - a);
  }

  lemma BagsGrow(pairs: multiset<Pair>, join: multiset<Pair>, found: multiset<Pair>, all: multiset<Pair>, missed: nat)
    requires pairs <= join && found <= all && |all| == |found| + missed
    ensures pairs + found <= join + all
    ensures |pairs + found| == |join + all| <==> |pairs| == |join| && missed == 0
  {
    assert |pairs + found| == |pairs| + |found| && |join + all| == |join| + |all|;
    SameSizeSame(pairs, join);
  }

  // ----- what timely events may still match

  /** `kept` serves every event from time `floor` on as well as `all` does. */
  ghost predicate ServesFrom(kept: seq<Event>, all: seq<Event>, window: nat, floor: int) {
    forall e: Event :: e.timestamp >= floor ==> Within(kept, e, window) == Within(all, e, window)
  }

  lemma {:induction false} WithinRetain(events: seq<Event>, e: Event, window: nat, cutoff: nat)
    requires e.timestamp - window >= cutoff
    ensures Within(Retain(events, cutoff), e, window) == Within(events, e, window)
  {
    if events != [] {
      WithinRetain(events[1..], e, window, cutoff);
      if events[0].timestamp >= cutoff {
        assert ([events[0]] + Retain(events[1..], cutoff))[1..] == Retain(events[1..], cutoff);
      }
    }
  }

  lemma ServesAfterCleanup(kept: seq<Event>, all: seq<Event>, window: nat, floor: int, now: nat)
    requires ServesFrom(kept, all, window, floor)
    requires 2 * window <= now < U64
    ensures var floor' := if floor > now - window then floor else now - window;
            ServesFrom(Retain(kept, Cutoff(now, window)), all, window, floor')
  {
    var floor' := if floor > now - window then floor else now - window;
    forall e: Event | e.timestamp >= floor'
      ensures Within(Retain(kept, Cutoff(now, window)), e, window) == Within(all, e, window)
    {
      WithinRetain(kept, e, window, now - 2 * window);
    }
  }

  lemma ServesAfterPush(kept: seq<Event>, all: seq<Event>, window: nat, floor: int, x: Event)
    requires ServesFrom(kept, all, window, floor)
    ensures ServesFrom([x] + kept, [x] + all, window, floor)
  {
    forall e: Event | e.timestamp >= floor
      ensures Within([x] + kept, e, window) == Within([x] + all, e, window)
    {
      assert ([x] + kept)[1..] == kept && ([x] + all)[1..] == all;
    }
  }

  /** The latest `now - window` of the cleanups so far: no event may arrive from before it. */
  ghost function Floor(steps: seq<Step>, window: nat): int {
    if steps == [] then 0
    else
      var floor := Floor(steps[..|steps| - 1], window);
      match steps[|steps| - 1]
      case Arrive(_) => floor
      case Cleanup(now) => if floor > now - window then floor else now - window
  }

  /** Cleanup clocks are at least two windows, and every relevant event that arrives after a cleanup
      at clock `now` carries a timestamp of at least `now - window`. */
  ghost predicate Timely(steps: seq<Step>, window: nat, relevant: Event -> bool) {
    && (forall i :: 0 <= i < |steps| && steps[i].Cleanup? ==> 2 * window <= steps[i].now < U64)
    && (forall i, j :: 0 <= i < j < |steps| && steps[i].Cleanup? && steps[j].Arrive? && relevant(steps[j].event)
          ==> steps[j].event.timestamp >= steps[i].now - window)
  }

  lemma TimelyPrefix(steps: seq<Step>, window: nat, relevant: Event -> bool)
    requires steps != [] && Timely(steps, window, relevant)
    ensures Timely(steps[..|steps| - 1], window, relevant)
  {
    var prefix := steps[..|steps| - 1];
    assert forall i :: 0 <= i < |prefix| ==> prefix[i] == steps[i];
  }

  lemma {:induction false} FloorBelow(steps: seq<Step>, window: nat, t: nat)
    requires forall i :: 0 <= i < |steps| && steps[i].Cleanup? ==> t >= steps[i].now - window
    ensures Floor(steps, window) <= t
  {
    if steps != [] {
      var prefix := steps[..|steps| - 1];
      assert forall i :: 0 <= i < |prefix| ==> prefix[i] == steps[i];
      FloorBelow(prefix, window, t);
    }
  }

  lemma TimelyArrival(steps: seq<Step>, window: nat, relevant: Event -> bool)
    requires steps != [] && Timely(steps, window, relevant)
    requires steps[|steps| - 1].Arrive? && relevant(steps[|steps| - 1].event)
    ensures steps[|steps| - 1].event.timestamp >= Floor(steps[..|steps| - 1], window)
  {
    FloorBelow(steps[..|steps| - 1], window, steps[|steps| - 1].event.timestamp);
  }

  /** The condition of `Timely` cannot be weakened: a cleanup at `now` keeps every event that an
      event at time `t` could still pair with if and only if `t` is at least `now - window`. */
  lemma LatenessBoundIsExact(now: nat, window: nat, t: nat)
    requires 2 * window < now < U64  // at two windows exactly nothing is dropped
    ensures (forall x: nat :: x < Cutoff(now, window) ==> !Near(t, x, window))
       <==> t >= now - window
  {
    if t < now - window {
      var x := if t < now - 2 * window then t else now - 2 * window - 1;
      assert x < Cutoff(now, window) && Near(t, x, window);
    }
  }

  /** Below two windows the subtraction wraps and the cleanup drops events it should keep: events it
      drops are out of reach of everything from `now - window` on if and only if it does not wrap. */
  lemma CleanupIsSafeUnlessItWraps(now: nat, window: nat)
    requires now < U64 && 4 * window < U64
    ensures (forall x: nat, t: nat :: x < Cutoff(now, window) && t >= now - window ==> !Near(t, x, window))
       <==> 2 * window <= now
  {
    if now < 2 * window {
      assert Cutoff(now, window) == now - 2 * window + U64;
      var x := now;
      assert x < Cutoff(now, window) && x >= now - window && Near(x, x, window);
    }
  }
}
