/** Tumbling windows over runs: which bucket an event goes to, and when the buckets are the batch results
    of their groups and windows. */
module TumblingRuns {
  import opened Values
  import opened Aggregation
  import opened AggregateSpec
  import opened AggregateRuns

  function WindowOf(q: Aggregate, t: nat): nat
    requires Runnable(q) && q.window.Tumbling?
  {
    TumblingStart(t, SizeNs(q.window))
  }

  predicate InCell(b: Bucket, keys: seq<string>, start: nat) {
    b.keys == keys && b.start == start
  }

  /** The bucket an arrival finds. */
  function Slot(buckets: seq<Bucket>, keys: seq<string>, start: nat): int {
    FindNewest(buckets, IsAtStart(keys, start))
  }

  lemma TumblingExecuted(lib: Library, q: Aggregate, st: AggState, e: Event, clock: nat)
    requires Runnable(q) && q.window.Tumbling? && Passes(lib, q, e)
    ensures
      var t, keys := EffectiveTime(e, clock), GroupKeys(lib, q.groupBy, e.data);
      var start := WindowOf(q, t);
      var i := Slot(st.buckets, keys, start);
      var before := if i >= 0 then st.buckets[i] else FreshBucket(keys, start, start + SizeNs(q.window));
      var b := Updated(q, before, e.data, t);
      Executed(lib, q, st, e, clock)
      == AggState(if i >= 0 then st.buckets[i := b] else st.buckets + [b], st.emitted)
  {
    hide Updated;
    var t, keys := EffectiveTime(e, clock), GroupKeys(lib, q.groupBy, e.data);
    var pl := Placed(q.window, st.buckets, keys, t);
    assert pl.chosen == [pl.chosen[0]];
    assert UpdateEach(q, pl.buckets, [], e.data, t) == pl.buckets;
    var n, created := |st.buckets|, FreshBucket(keys, WindowOf(q, t), WindowOf(q, t) + SizeNs(q.window));
    assert (st.buckets + [created])[n := Updated(q, created, e.data, t)]
        == st.buckets + [Updated(q, created, e.data, t)];
  }

  // ----- which group an event is counted in

  /** Every bucket is of a group with keys or of the events without data. */
  ghost predicate AllGrouped(q: Aggregate, buckets: seq<Bucket>) {
    forall k :: 0 <= k < |buckets| ==> Grouped(q, buckets[k])
  }

  predicate Grouped(q: Aggregate, b: Bucket) {
    b.keys == [] || |b.keys| == |q.groupBy|
  }

  lemma {:induction false} KeptGrouped(q: Aggregate, buckets: seq<Bucket>, now: nat)
    requires AllAligned(q.window, buckets) && AllGrouped(q, buckets) && q.window.Tumbling?
    ensures AllGrouped(q, Kept(q.window, buckets, now))
  {
    TumblingFlush(q.window, buckets, now);
  }

  lemma ArrivalKeepsGrouped(lib: Library, q: Aggregate, st: AggState, e: Event, clock: nat)
    requires Runnable(q) && q.window.Tumbling? && Passes(lib, q, e) && AllGrouped(q, st.buckets)
    ensures AllGrouped(q, Executed(lib, q, st, e, clock).buckets)
  {
    hide Updated;
    var t, keys := EffectiveTime(e, clock), GroupKeys(lib, q.groupBy, e.data);
    var start := WindowOf(q, t);
    var i := Slot(st.buckets, keys, start);
    TumblingExecuted(lib, q, st, e, clock);
    UpdatedKeeps(q, if i >= 0 then st.buckets[i] else FreshBucket(keys, start, start + SizeNs(q.window)), e.data, t);
  }

  lemma {:induction false} RunStaysGrouped(lib: Library, q: Aggregate, steps: seq<AggStep>)
    requires Runnable(q) && q.window.Tumbling?
    ensures AllGrouped(q, Run(lib, q, steps).buckets)
  {
    if steps != [] {
      hide AllGrouped, Executed, Kept, Emits, Passes;
      var prefix, s := steps[..|steps| - 1], steps[|steps| - 1];
      var st := Run(lib, q, prefix);
      RunStaysGrouped(lib, q, prefix);
      match s
      case Flush(now) => KeptGrouped(q, st.buckets, now);
      case Arrive(e, clock) =>
        if Passes(lib, q, e) {
          ArrivalKeepsGrouped(lib, q, st, e, clock);
        } else {
          RejectedIsIdle(lib, q, st, e, clock);
        }
    } else {
      EmptyRun(lib, q);
    }
  }

  /** The newest bucket of any group at a start, or -1. */
  function NewestAt(buckets: seq<Bucket>, start: nat): int {
    FindNewest(buckets, (b: Bucket) => b.start == start)
  }

  /** In every reachable state: an event goes to a bucket of its own group, of the window that contains it,
      always when it has keys, and without keys exactly when the newest bucket of that window has none
      either. */
  lemma EventJoinsItsGroupIff(lib: Library, q: Aggregate, steps: seq<AggStep>, e: Event, t: nat)
    requires Runnable(q) && q.window.Tumbling?
    ensures
      var buckets, own, newest := Run(lib, q, steps).buckets, GroupKeys(lib, q.groupBy, e.data),
                                  NewestAt(Run(lib, q, steps).buckets, WindowOf(q, t));
      var pl := Placed(q.window, buckets, own, t);
      && |pl.chosen| == 1 && pl.chosen[0] < |pl.buckets|
      && pl.buckets[pl.chosen[0]].start <= t < pl.buckets[pl.chosen[0]].end
      && (pl.buckets[pl.chosen[0]].keys == own
          <==> HasKeys(lib, q, e) || newest < 0 || buckets[newest].keys == [])
  {
    hide Run, GroupKeys;
    var buckets, own := Run(lib, q, steps).buckets, GroupKeys(lib, q.groupBy, e.data);
    RunStaysGrouped(lib, q, steps);
    EventLandsInItsWindow(q, buckets, own, t);
    KeysOfEvent(lib, q, e);
    var start := WindowOf(q, t);
    var i, newest := Slot(buckets, own, start), NewestAt(buckets, start);
    if own == [] {
      SlotIsNewest(buckets, start);
    } else if i >= 0 {
      assert SameGroup(buckets[i].keys, own) && Grouped(q, buckets[i]);
    }
  }

  lemma {:induction false} SlotIsNewest(buckets: seq<Bucket>, start: nat)
    ensures Slot(buckets, [], start) == NewestAt(buckets, start)
  {
    var i, j := Slot(buckets, [], start), NewestAt(buckets, start);
    assert i >= 0 ==> AtStart(buckets[i], [], start);
    assert j >= 0 ==> IsAtStart([], start)(buckets[j]);
  }

  /** A run in which it does not, for every grouped query: an event with data, then one without in the same
      window, and one bucket of the first one's group holds both. */
  lemma BlankJoinsAnotherGroup(lib: Library, q: Aggregate, a: Event, blank: Event, clock: nat)
    requires Runnable(q) && q.window.Tumbling? && Passes(lib, q, a) && Passes(lib, q, blank) && blank.data == None
    requires WindowOf(q, EffectiveTime(a, clock)) == WindowOf(q, EffectiveTime(blank, clock))
    ensures
      var st := Run(lib, q, [Arrive(a, clock), Arrive(blank, clock)]);
      |st.buckets| == 1 && st.buckets[0].keys == GroupKeys(lib, q.groupBy, a.data) && st.buckets[0].count == 2
  {
    hide Updated, Run, GroupKeys, Passes, Executed;
    var keys, start := GroupKeys(lib, q.groupBy, a.data), WindowOf(q, EffectiveTime(a, clock));
    var created := FreshBucket(keys, start, start + SizeNs(q.window));
    var b := Updated(q, created, a.data, EffectiveTime(a, clock));
    RunStep(lib, q, [], Arrive(a, clock));
    RunStep(lib, q, [Arrive(a, clock)], Arrive(blank, clock));
    assert [] + [Arrive(a, clock)] == [Arrive(a, clock)];
    assert [Arrive(a, clock)] + [Arrive(blank, clock)] == [Arrive(a, clock), Arrive(blank, clock)];
    EmptyRun(lib, q);
    TumblingExecuted(lib, q, EMPTY_AGG, a, clock);
    UpdatedKeeps(q, created, a.data, EffectiveTime(a, clock));
    assert Run(lib, q, [Arrive(a, clock)]) == AggState([b], []);
    TumblingExecuted(lib, q, AggState([b], []), blank, clock);
    NoKeys(lib, q, blank);
    assert AtStart(b, [], start) && IsAtStart([], start)(b);
    assert Slot([b], [], start) == 0;
    UpdatedKeeps(q, b, blank.data, EffectiveTime(blank, clock));
  }

  lemma NoKeys(lib: Library, q: Aggregate, blank: Event)
    requires blank.data == None
    ensures GroupKeys(lib, q.groupBy, blank.data) == []
  {
  }

  // ----- the contents of the buckets

  /** The accepted events of one group and window, in order of arrival. */
  ghost function WindowEvents(lib: Library, q: Aggregate, steps: seq<AggStep>, keys: seq<string>,
      start: nat): seq<Stamped>
    requires Runnable(q) && q.window.Tumbling?
  {
    if steps == [] then []
    else
      var before := WindowEvents(lib, q, steps[..|steps| - 1], keys, start);
      var s := steps[|steps| - 1];
      if Joins(lib, q, s, keys) && WindowOf(q, StepTime(s)) == start then before + [(s.event, StepTime(s))] else before
  }

  /** The bucket of all events of a group and window. */
  function CellBucket(q: Aggregate, keys: seq<string>, start: nat, evs: seq<Stamped>): Bucket
    requires Runnable(q) && q.window.Tumbling?
  {
    Folded(q, FreshBucket(keys, start, start + SizeNs(q.window)), evs)
  }

  /** A group and window without events has no bucket, any other has one, the batch result. */
  ghost predicate CellState(q: Aggregate, buckets: seq<Bucket>, keys: seq<string>, start: nat, evs: seq<Stamped>)
    requires Runnable(q) && q.window.Tumbling?
  {
    && (forall k :: 0 <= k < |buckets| && InCell(buckets[k], keys, start)
          ==> evs != [] && buckets[k] == CellBucket(q, keys, start, evs))
    && (evs != [] ==> exists k :: 0 <= k < |buckets| && InCell(buckets[k], keys, start))
    && (forall j, k :: 0 <= j < k < |buckets| && InCell(buckets[j], keys, start) ==> !InCell(buckets[k], keys, start))
  }

  ghost predicate Contents(lib: Library, q: Aggregate, steps: seq<AggStep>)
    requires Runnable(q) && q.window.Tumbling?
  {
    forall keys: seq<string>, start: nat ::
      CellState(q, Run(lib, q, steps).buckets, keys, start, WindowEvents(lib, q, steps, keys, start))
  }

  /** No flush comes at or after the end of the window of an earlier accepted event. */
  ghost predicate FlushesEarly(lib: Library, q: Aggregate, steps: seq<AggStep>)
    requires Runnable(q) && q.window.Tumbling?
  {
    forall i, k :: 0 <= i < k < |steps| && IsAccepted(lib, q, steps[i]) && steps[k].Flush?
      ==> steps[k].now < WindowOf(q, StepTime(steps[i])) + SizeNs(q.window)
  }

  /** No accepted event without data comes after an accepted one with keys in the same window. */
  ghost predicate BlanksLead(lib: Library, q: Aggregate, steps: seq<AggStep>)
    requires Runnable(q) && q.window.Tumbling?
  {
    forall i, j ::
      0 <= i < j < |steps| && IsAccepted(lib, q, steps[i]) && IsAccepted(lib, q, steps[j])
      && WindowOf(q, StepTime(steps[i])) == WindowOf(q, StepTime(steps[j])) && HasKeys(lib, q, steps[i].event)
      ==> HasKeys(lib, q, steps[j].event)
  }

  /** An accepted event of the window, with keys when that is asked for. */
  ghost predicate AnyIn(lib: Library, q: Aggregate, steps: seq<AggStep>, start: nat, keyed: bool)
    requires Runnable(q) && q.window.Tumbling?
  {
    exists i :: 0 <= i < |steps| && IsAccepted(lib, q, steps[i]) && WindowOf(q, StepTime(steps[i])) == start
                && (keyed ==> HasKeys(lib, q, steps[i].event))
  }

  ghost predicate Safe(lib: Library, q: Aggregate, steps: seq<AggStep>)
    requires Runnable(q) && q.window.Tumbling?
  {
    FlushesEarly(lib, q, steps) && BlanksLead(lib, q, steps)
  }

  lemma SafeStep(lib: Library, q: Aggregate, steps: seq<AggStep>)
    requires Runnable(q) && q.window.Tumbling? && steps != []
    ensures
      var prefix, s := steps[..|steps| - 1], steps[|steps| - 1];
      Safe(lib, q, steps) <==>
        && Safe(lib, q, prefix)
        && (s.Flush? ==>
              forall start: nat :: AnyIn(lib, q, prefix, start, false) ==> s.now < start + SizeNs(q.window))
        && (IsAccepted(lib, q, s) && AnyIn(lib, q, prefix, WindowOf(q, StepTime(s)), true)
            ==> HasKeys(lib, q, s.event))
  {
    hide IsAccepted, HasKeys, WindowOf, SizeNs;
    var prefix, s := steps[..|steps| - 1], steps[|steps| - 1];
    assert forall i :: 0 <= i < |prefix| ==> prefix[i] == steps[i];
    if s.Flush? && FlushesEarly(lib, q, prefix)
       && forall start: nat :: AnyIn(lib, q, prefix, start, false) ==> s.now < start + SizeNs(q.window) {
      forall i, k | 0 <= i < k < |steps| && IsAccepted(lib, q, steps[i]) && steps[k].Flush?
        ensures steps[k].now < WindowOf(q, StepTime(steps[i])) + SizeNs(q.window)
      {
        if k == |prefix| {
          assert AnyIn(lib, q, prefix, WindowOf(q, StepTime(prefix[i])), false);
        }
      }
    }
  }

  lemma {:induction false} WindowsSeen(lib: Library, q: Aggregate, steps: seq<AggStep>, keys: seq<string>, start: nat)
    requires Runnable(q) && q.window.Tumbling? && WindowEvents(lib, q, steps, keys, start) != []
    ensures AnyIn(lib, q, steps, start, false)
  {
    hide IsAccepted, WindowOf, GroupKeys;
    var prefix := steps[..|steps| - 1];
    if WindowEvents(lib, q, prefix, keys, start) != [] {
      WindowsSeen(lib, q, prefix, keys, start);
      assert forall i :: 0 <= i < |prefix| ==> prefix[i] == steps[i];
    } else {
      assert IsAccepted(lib, q, steps[|prefix|]) && WindowOf(q, StepTime(steps[|prefix|])) == start;
    }
  }

  lemma {:induction false} SeenHasEvents(lib: Library, q: Aggregate, steps: seq<AggStep>, i: nat)
    requires Runnable(q) && q.window.Tumbling? && i < |steps| && IsAccepted(lib, q, steps[i])
    ensures
      var keys := GroupKeys(lib, q.groupBy, steps[i].event.data);
      WindowEvents(lib, q, steps, keys, WindowOf(q, StepTime(steps[i]))) != []
  {
    hide WindowOf, GroupKeys;
    var prefix := steps[..|steps| - 1];
    if i < |prefix| {
      assert prefix[i] == steps[i];
      SeenHasEvents(lib, q, prefix, i);
    }
  }

  // ----- safe runs keep the contents

  /** At a start without keyed events all buckets are without keys; at any other the newest has keys. */
  ghost predicate BlanksApart(q: Aggregate, buckets: seq<Bucket>, start: nat, anyKeyed: bool) {
    && (!anyKeyed ==> forall k :: 0 <= k < |buckets| && buckets[k].start == start ==> buckets[k].keys == [])
    && (anyKeyed ==> exists k :: 0 <= k < |buckets| && buckets[k].start == start && |buckets[k].keys| == |q.groupBy|
                                 && forall j :: k < j < |buckets| ==> buckets[j].start != start)
  }

  ghost predicate AllApart(lib: Library, q: Aggregate, steps: seq<AggStep>)
    requires Runnable(q) && q.window.Tumbling?
  {
    forall start: nat :: BlanksApart(q, Run(lib, q, steps).buckets, start, AnyIn(lib, q, steps, start, true))
  }

  /** What an arrival with these keys and time does to a list of buckets. */
  ghost function Landed(q: Aggregate, buckets: seq<Bucket>, keys: seq<string>, data: Option<Json>, t: nat): seq<Bucket>
    requires Runnable(q) && q.window.Tumbling?
  {
    var start := WindowOf(q, t);
    var i := Slot(buckets, keys, start);
    if i >= 0 then buckets[i := Updated(q, buckets[i], data, t)]
    else buckets + [Updated(q, FreshBucket(keys, start, start + SizeNs(q.window)), data, t)]
  }

  /** The group an arrival is counted in. */
  ghost function Into(q: Aggregate, buckets: seq<Bucket>, keys: seq<string>, t: nat): seq<string>
    requires Runnable(q) && q.window.Tumbling?
  {
    var i := Slot(buckets, keys, WindowOf(q, t));
    if i >= 0 then buckets[i].keys else keys
  }

  lemma LandedShape(q: Aggregate, buckets: seq<Bucket>, keys: seq<string>, data: Option<Json>, t: nat) returns (n: nat)
    requires Runnable(q) && q.window.Tumbling?
    ensures
      var landed, into := Landed(q, buckets, keys, data, t), Into(q, buckets, keys, t);
      && n < |landed| && |buckets| <= |landed| <= |buckets| + 1
      && InCell(landed[n], into, WindowOf(q, t))
      && (n < |buckets| ==>
            && |landed| == |buckets| && InCell(buckets[n], into, WindowOf(q, t)) && keys <= into
            && landed[n] == Updated(q, buckets[n], data, t) && landed[n].count == buckets[n].count + 1)
      && (n == |buckets| ==>
            && |landed| == |buckets| + 1 && into == keys && landed[n].count == 1
            && landed[n] == Updated(q, CellBucket(q, keys, WindowOf(q, t), []), data, t)
            && forall k :: 0 <= k < |buckets| && buckets[k].start == WindowOf(q, t) ==> !(keys <= buckets[k].keys))
      && (forall k :: 0 <= k < |buckets| && k != n ==> landed[k] == buckets[k])
      && (forall k :: n < k < |buckets| && buckets[k].start == WindowOf(q, t) ==> !(keys <= buckets[k].keys))
  {
    hide Updated, WindowOf;
    var start := WindowOf(q, t);
    var i := Slot(buckets, keys, start);
    var before := if i >= 0 then buckets[i] else FreshBucket(keys, start, start + SizeNs(q.window));
    UpdatedKeeps(q, before, data, t);
    n := if i >= 0 then i else |buckets|;
    forall k | i < k < |buckets| && buckets[k].start == start ensures !(keys <= buckets[k].keys) {
      assert !IsAtStart(keys, start)(buckets[k]);
    }
  }

  /** An arrival that joins its own group, seen from any group and window. */
  lemma ArrivalKeepsCell(q: Aggregate, buckets: seq<Bucket>, own: seq<string>, x: Stamped, keys: seq<string>,
      start: nat, evs: seq<Stamped>)
    requires Runnable(q) && q.window.Tumbling? && CellState(q, buckets, keys, start, evs)
    requires Into(q, buckets, own, x.1) == own
    ensures
      var mine := own == keys && WindowOf(q, x.1) == start;
      CellState(q, Landed(q, buckets, own, x.0.data, x.1), keys, start, if mine then evs + [x] else evs)
  {
    hide Landed, Into, WindowOf, CellBucket;
    var n := LandedShape(q, buckets, own, x.0.data, x.1);
    var landed := Landed(q, buckets, own, x.0.data, x.1);
    CellGrows(q, keys, start, evs, x);
    if own == keys && WindowOf(q, x.1) == start {
      if n == |buckets| {
        assert forall k :: 0 <= k < |buckets| ==> !InCell(buckets[k], keys, start);
      }
      assert landed[n] == CellBucket(q, keys, start, evs + [x]);
    } else {
      assert !InCell(landed[n], keys, start);
    }
  }

  lemma CellGrows(q: Aggregate, keys: seq<string>, start: nat, evs: seq<Stamped>, x: Stamped)
    requires Runnable(q) && q.window.Tumbling?
    ensures CellBucket(q, keys, start, evs + [x]) == Updated(q, CellBucket(q, keys, start, evs), x.0.data, x.1)
  {
    FoldedAppend(q, FreshBucket(keys, start, start + SizeNs(q.window)), evs, x);
  }

  lemma ArrivalKeepsApart(q: Aggregate, buckets: seq<Bucket>, own: seq<string>, data: Option<Json>, t: nat, start: nat,
      anyKeyed: bool)
    requires Runnable(q) && q.window.Tumbling? && BlanksApart(q, buckets, start, anyKeyed)
    requires own == [] || |own| == |q.groupBy|
    requires WindowOf(q, t) == start && anyKeyed ==> |own| == |q.groupBy|
    requires AllGrouped(q, buckets)
    ensures WindowOf(q, t) == start ==> Into(q, buckets, own, t) == own
    ensures BlanksApart(q, Landed(q, buckets, own, data, t), start,
                        anyKeyed || (WindowOf(q, t) == start && |own| == |q.groupBy|))
  {
    hide Landed, Into, WindowOf, CellBucket;
    var n := LandedShape(q, buckets, own, data, t);
    var landed := Landed(q, buckets, own, data, t);
    if WindowOf(q, t) == start {
      if n < |buckets| {
        assert Grouped(q, buckets[n]);
      }
    } else {
      assert landed[n].start != start;
    }
  }

  lemma FlushFindsNothing(lib: Library, q: Aggregate, steps: seq<AggStep>, now: nat)
    requires Runnable(q) && q.window.Tumbling? && Contents(lib, q, steps)
    requires forall start: nat :: AnyIn(lib, q, steps, start, false) ==> now < start + SizeNs(q.window)
    ensures Kept(q.window, Run(lib, q, steps).buckets, now) == Run(lib, q, steps).buckets
  {
    hide Run, CellBucket, AnyIn;
    var buckets := Run(lib, q, steps).buckets;
    TumblingFlush(q.window, buckets, now);
    forall k | 0 <= k < |buckets| ensures buckets[k].end > now {
      var b := buckets[k];
      assert CellState(q, buckets, b.keys, b.start, WindowEvents(lib, q, steps, b.keys, b.start));
      assert InCell(buckets[k], b.keys, b.start) && Aligned(q.window, b);
      WindowsSeen(lib, q, steps, b.keys, b.start);
    }
  }

  lemma AnyInStep(lib: Library, q: Aggregate, steps: seq<AggStep>, start: nat, keyed: bool)
    requires Runnable(q) && q.window.Tumbling? && steps != []
    ensures
      var prefix, s := steps[..|steps| - 1], steps[|steps| - 1];
      AnyIn(lib, q, steps, start, keyed) <==>
        || AnyIn(lib, q, prefix, start, keyed)
        || (IsAccepted(lib, q, s) && WindowOf(q, StepTime(s)) == start && (keyed ==> HasKeys(lib, q, s.event)))
  {
    hide IsAccepted, HasKeys, WindowOf;
    var prefix := steps[..|steps| - 1];
    assert forall i :: 0 <= i < |prefix| ==> prefix[i] == steps[i];
  }

  lemma ExecutedLands(lib: Library, q: Aggregate, st: AggState, e: Event, clock: nat)
    requires Runnable(q) && q.window.Tumbling? && Passes(lib, q, e)
    ensures Executed(lib, q, st, e, clock).buckets
         == Landed(q, st.buckets, GroupKeys(lib, q.groupBy, e.data), e.data, EffectiveTime(e, clock))
  {
    hide Executed, Updated, GroupKeys, Passes;
    TumblingExecuted(lib, q, st, e, clock);
  }

  /** One step of a run: an accepted arrival lands, a flush keeps what it keeps, anything else is idle. */
  lemma TumblingStep(lib: Library, q: Aggregate, steps: seq<AggStep>)
    requires Runnable(q) && q.window.Tumbling? && steps != []
    ensures
      var prefix, s := steps[..|steps| - 1], steps[|steps| - 1];
      var before, after := Run(lib, q, prefix).buckets, Run(lib, q, steps).buckets;
      && (IsAccepted(lib, q, s) ==>
            after == Landed(q, before, GroupKeys(lib, q.groupBy, s.event.data), s.event.data, StepTime(s)))
      && (s.Arrive? && !IsAccepted(lib, q, s) ==> after == before)
      && (s.Flush? ==> after == Kept(q.window, before, s.now))
  {
    hide Executed, Kept, Emits, GroupKeys, Passes, Landed, Runnable;
    var prefix, s := steps[..|steps| - 1], steps[|steps| - 1];
    match s
    case Flush(now) =>
    case Arrive(e, clock) =>
      if Passes(lib, q, e) {
        ExecutedLands(lib, q, Run(lib, q, prefix), e, clock);
      } else {
        RejectedIsIdle(lib, q, Run(lib, q, prefix), e, clock);
      }
  }

  lemma SafeArrival(lib: Library, q: Aggregate, steps: seq<AggStep>)
    requires Runnable(q) && q.window.Tumbling? && steps != [] && IsAccepted(lib, q, steps[|steps| - 1])
    requires Contents(lib, q, steps[..|steps| - 1]) && AllApart(lib, q, steps[..|steps| - 1])
    requires
      var prefix, s := steps[..|steps| - 1], steps[|steps| - 1];
      AnyIn(lib, q, prefix, WindowOf(q, StepTime(s)), true) ==> HasKeys(lib, q, s.event)
    ensures Contents(lib, q, steps) && AllApart(lib, q, steps)
  {
    hide Run, Landed, Into, AnyIn, BlanksApart, CellState, WindowOf, AllGrouped;
    var prefix, s := steps[..|steps| - 1], steps[|steps| - 1];
    var buckets, own, t := Run(lib, q, prefix).buckets, GroupKeys(lib, q.groupBy, s.event.data), StepTime(s);
    RunStaysGrouped(lib, q, prefix);
    TumblingStep(lib, q, steps);
    KeysOfEvent(lib, q, s.event);
    forall start: nat ensures BlanksApart(q, Run(lib, q, steps).buckets, start, AnyIn(lib, q, steps, start, true)) {
      AnyInStep(lib, q, steps, start, true);
      ArrivalKeepsApart(q, buckets, own, s.event.data, t, start, AnyIn(lib, q, prefix, start, true));
    }
    ArrivalKeepsApart(q, buckets, own, s.event.data, t, WindowOf(q, t), AnyIn(lib, q, prefix, WindowOf(q, t), true));
    forall keys: seq<string>, start: nat
      ensures CellState(q, Run(lib, q, steps).buckets, keys, start, WindowEvents(lib, q, steps, keys, start))
    {
      ArrivalKeepsCell(q, buckets, own, (s.event, t), keys, start, WindowEvents(lib, q, prefix, keys, start));
    }
  }

  lemma IdleStep(lib: Library, q: Aggregate, steps: seq<AggStep>)
    requires Runnable(q) && q.window.Tumbling? && steps != [] && !IsAccepted(lib, q, steps[|steps| - 1])
    requires Contents(lib, q, steps[..|steps| - 1]) && AllApart(lib, q, steps[..|steps| - 1])
    requires Run(lib, q, steps).buckets == Run(lib, q, steps[..|steps| - 1]).buckets
    ensures Contents(lib, q, steps) && AllApart(lib, q, steps)
  {
    hide Run, AnyIn, BlanksApart, CellState, WindowOf, IsAccepted;
    var prefix := steps[..|steps| - 1];
    forall start: nat ensures BlanksApart(q, Run(lib, q, steps).buckets, start, AnyIn(lib, q, steps, start, true)) {
      AnyInStep(lib, q, steps, start, true);
      assert BlanksApart(q, Run(lib, q, prefix).buckets, start, AnyIn(lib, q, prefix, start, true));
    }
    forall keys: seq<string>, start: nat
      ensures CellState(q, Run(lib, q, steps).buckets, keys, start, WindowEvents(lib, q, steps, keys, start))
    {
      assert CellState(q, Run(lib, q, prefix).buckets, keys, start, WindowEvents(lib, q, prefix, keys, start));
    }
  }

  lemma NothingThere(lib: Library, q: Aggregate)
    requires Runnable(q) && q.window.Tumbling?
    ensures Contents(lib, q, []) && AllApart(lib, q, [])
  {
  }

  lemma {:induction false} SafeRun(lib: Library, q: Aggregate, steps: seq<AggStep>)
    requires Runnable(q) && q.window.Tumbling? && Safe(lib, q, steps)
    ensures Contents(lib, q, steps) && AllApart(lib, q, steps)
  {
    hide Run, Safe, Contents, AllApart, AnyIn, WindowOf, Kept;
    if steps == [] {
      NothingThere(lib, q);
    } else {
      var prefix, s := steps[..|steps| - 1], steps[|steps| - 1];
      SafeStep(lib, q, steps);
      SafeRun(lib, q, prefix);
      TumblingStep(lib, q, steps);
      if IsAccepted(lib, q, s) {
        SafeArrival(lib, q, steps);
      } else {
        if s.Flush? {
          FlushFindsNothing(lib, q, prefix, s.now);
        }
        IdleStep(lib, q, steps);
      }
    }
  }

  // ----- unsafe runs lose them for good

  /** All the buckets of the group and window hold fewer events than there were. */
  ghost predicate Short(buckets: seq<Bucket>, keys: seq<string>, start: nat, evs: seq<Stamped>) {
    evs != [] && forall k :: 0 <= k < |buckets| && InCell(buckets[k], keys, start) ==> buckets[k].count < |evs|
  }

  lemma ShortIsWrong(q: Aggregate, buckets: seq<Bucket>, keys: seq<string>, start: nat, evs: seq<Stamped>)
    requires Runnable(q) && q.window.Tumbling? && Short(buckets, keys, start, evs)
    ensures !CellState(q, buckets, keys, start, evs)
  {
    FoldedKeeps(q, FreshBucket(keys, start, start + SizeNs(q.window)), evs);
  }

  /** Only events without data are counted into buckets without keys. */
  ghost predicate BlanksBounded(lib: Library, q: Aggregate, steps: seq<AggStep>)
    requires Runnable(q) && q.window.Tumbling?
  {
    forall k :: 0 <= k < |Run(lib, q, steps).buckets| && Run(lib, q, steps).buckets[k].keys == [] ==>
      var b := Run(lib, q, steps).buckets[k];
      b.count <= |WindowEvents(lib, q, steps, [], b.start)|
  }

  lemma FlushBounds(w: Window, buckets: seq<Bucket>, now: nat, k: nat)
    requires w.Tumbling? && AllAligned(w, buckets) && k < |Kept(w, buckets, now)|
    ensures var kept := Kept(w, buckets, now);
            k < |buckets| && Aligned(w, kept[k]) && kept[k].end > now && (kept[k] == buckets[k] || kept[k].count == 0)
  {
    TumblingFlush(w, buckets, now);
    KeptAligned(w, buckets, now);
  }

  lemma {:induction false} RunBoundsBlanks(lib: Library, q: Aggregate, steps: seq<AggStep>)
    requires Runnable(q) && q.window.Tumbling?
    ensures BlanksBounded(lib, q, steps)
  {
    hide Run, Landed, Into, WindowOf, Kept, IsAccepted, GroupKeys;
    if steps == [] {
      EmptyRun(lib, q);
    } else {
      var prefix, s := steps[..|steps| - 1], steps[|steps| - 1];
      var before, after := Run(lib, q, prefix).buckets, Run(lib, q, steps).buckets;
      RunBoundsBlanks(lib, q, prefix);
      TumblingStep(lib, q, steps);
      if s.Flush? {
        forall k | 0 <= k < |after| && after[k].keys == []
          ensures after[k].count <= |WindowEvents(lib, q, steps, [], after[k].start)|
        {
          FlushBounds(q.window, before, s.now, k);
        }
      } else if IsAccepted(lib, q, s) {
        var n := LandedShape(q, before, GroupKeys(lib, q.groupBy, s.event.data), s.event.data, StepTime(s));
      }
    }
  }

  ghost predicate SomeShort(lib: Library, q: Aggregate, steps: seq<AggStep>)
    requires Runnable(q) && q.window.Tumbling?
  {
    exists keys: seq<string>, start: nat ::
      Short(Run(lib, q, steps).buckets, keys, start, WindowEvents(lib, q, steps, keys, start))
  }

  /** An event without data that joins another group leaves its own short. */
  lemma StrayBlank(lib: Library, q: Aggregate, steps: seq<AggStep>)
    requires Runnable(q) && q.window.Tumbling? && steps != [] && IsAccepted(lib, q, steps[|steps| - 1])
    requires
      var s := steps[|steps| - 1];
      var own := GroupKeys(lib, q.groupBy, s.event.data);
      Into(q, Run(lib, q, steps[..|steps| - 1]).buckets, own, StepTime(s)) != own
    ensures SomeShort(lib, q, steps)
  {
    hide Run, Landed, Into, WindowOf, AllGrouped;
    var prefix, s := steps[..|steps| - 1], steps[|steps| - 1];
    var before, own := Run(lib, q, prefix).buckets, GroupKeys(lib, q.groupBy, s.event.data);
    RunStaysGrouped(lib, q, prefix);
    RunBoundsBlanks(lib, q, prefix);
    TumblingStep(lib, q, steps);
    KeysOfEvent(lib, q, s.event);
    var n := LandedShape(q, before, own, s.event.data, StepTime(s));
    StrayIsBlank(q, before, own, StepTime(s), n);
    assert Short(Run(lib, q, steps).buckets, [], WindowOf(q, StepTime(s)),
                 WindowEvents(lib, q, steps, [], WindowOf(q, StepTime(s))));
  }

  lemma StrayIsBlank(q: Aggregate, buckets: seq<Bucket>, own: seq<string>, t: nat, n: nat)
    requires Runnable(q) && q.window.Tumbling? && AllGrouped(q, buckets) && n < |buckets|
    requires own == [] || |own| == |q.groupBy|
    requires own <= buckets[n].keys && buckets[n].keys != own
    ensures own == []
  {
    assert Grouped(q, buckets[n]);
  }

  lemma ShortStays(lib: Library, q: Aggregate, steps: seq<AggStep>)
    requires Runnable(q) && q.window.Tumbling? && steps != [] && SomeShort(lib, q, steps[..|steps| - 1])
    ensures SomeShort(lib, q, steps)
  {
    hide Run, Landed, Into, WindowOf, Kept, Passes, GroupKeys;
    var prefix, s := steps[..|steps| - 1], steps[|steps| - 1];
    var before, after := Run(lib, q, prefix).buckets, Run(lib, q, steps).buckets;
    var keys: seq<string>, start: nat :| Short(before, keys, start, WindowEvents(lib, q, prefix, keys, start));
    TumblingStep(lib, q, steps);
    var own := if s.Arrive? then GroupKeys(lib, q.groupBy, s.event.data) else [];
    if IsAccepted(lib, q, s) && Into(q, before, own, StepTime(s)) != own {
      StrayBlank(lib, q, steps);
    } else {
      if s.Flush? {
        forall k | 0 <= k < |after| && InCell(after[k], keys, start)
          ensures after[k].count < |WindowEvents(lib, q, prefix, keys, start)|
        {
          FlushBounds(q.window, before, s.now, k);
        }
      } else if IsAccepted(lib, q, s) {
        var n := LandedShape(q, before, own, s.event.data, StepTime(s));
      }
      assert Short(after, keys, start, WindowEvents(lib, q, steps, keys, start));
    }
  }

  lemma LateFlushLeavesShort(lib: Library, q: Aggregate, steps: seq<AggStep>, start: nat)
    requires Runnable(q) && q.window.Tumbling? && steps != [] && steps[|steps| - 1].Flush?
    requires AnyIn(lib, q, steps[..|steps| - 1], start, false)
    requires steps[|steps| - 1].now >= start + SizeNs(q.window)
    ensures SomeShort(lib, q, steps)
  {
    hide Run, WindowOf, Kept, GroupKeys, Passes;
    var prefix, s := steps[..|steps| - 1], steps[|steps| - 1];
    var i :| 0 <= i < |prefix| && IsAccepted(lib, q, prefix[i]) && WindowOf(q, StepTime(prefix[i])) == start;
    SeenHasEvents(lib, q, prefix, i);
    TumblingStep(lib, q, steps);
    var keys, after := GroupKeys(lib, q.groupBy, prefix[i].event.data), Run(lib, q, steps).buckets;
    forall k | 0 <= k < |after| ensures after[k].start != start {
      FlushBounds(q.window, Run(lib, q, prefix).buckets, s.now, k);
    }
    assert Short(after, keys, start, WindowEvents(lib, q, steps, keys, start));
  }

  lemma LateBlankStrays(lib: Library, q: Aggregate, steps: seq<AggStep>)
    requires Runnable(q) && q.window.Tumbling? && steps != [] && IsAccepted(lib, q, steps[|steps| - 1])
    requires AllApart(lib, q, steps[..|steps| - 1]) && !HasKeys(lib, q, steps[|steps| - 1].event)
    requires AnyIn(lib, q, steps[..|steps| - 1], WindowOf(q, StepTime(steps[|steps| - 1])), true)
    ensures SomeShort(lib, q, steps)
  {
    hide Run, WindowOf, AnyIn, Passes, GroupKeys, Landed, Into;
    var prefix, s := steps[..|steps| - 1], steps[|steps| - 1];
    var start, buckets := WindowOf(q, StepTime(s)), Run(lib, q, prefix).buckets;
    KeysOfEvent(lib, q, s.event);
    assert BlanksApart(q, buckets, start, AnyIn(lib, q, prefix, start, true));
    var n := LandedShape(q, buckets, [], s.event.data, StepTime(s));
    StrayBlank(lib, q, steps);
  }

  lemma {:induction false} UnsafeShort(lib: Library, q: Aggregate, steps: seq<AggStep>)
    requires Runnable(q) && q.window.Tumbling? && !Safe(lib, q, steps)
    ensures SomeShort(lib, q, steps)
  {
    hide Run, WindowOf, AnyIn, IsAccepted, HasKeys, Safe, SomeShort, Contents, AllApart;
    if steps == [] {
      SafeAtFirst(lib, q);
    } else {
      var prefix, s := steps[..|steps| - 1], steps[|steps| - 1];
      SafeStep(lib, q, steps);
      if !Safe(lib, q, prefix) {
        UnsafeShort(lib, q, prefix);
        ShortStays(lib, q, steps);
      } else {
        SafeRun(lib, q, prefix);
        if s.Flush? {
          assert !IsAccepted(lib, q, s) by { FlushIsNoEvent(lib, q, s); }
          var start: nat :| AnyIn(lib, q, prefix, start, false) && s.now >= start + SizeNs(q.window);
          LateFlushLeavesShort(lib, q, steps, start);
        } else {
          LateBlankStrays(lib, q, steps);
        }
      }
    }
  }

  lemma FlushIsNoEvent(lib: Library, q: Aggregate, s: AggStep)
    requires s.Flush?
    ensures !IsAccepted(lib, q, s)
  {
  }

  lemma SafeAtFirst(lib: Library, q: Aggregate)
    requires Runnable(q) && q.window.Tumbling?
    ensures Safe(lib, q, [])
  {
  }

  /** Tumbling aggregation refines a map from groups and windows to batch results: those with accepted
      events have exactly one bucket, the batch result over them, and no others have one. That holds of all
      groups and windows if and only if no flush comes at or after the end of a window with events in it,
      and in no window an accepted event without data follows one with keys. */
  lemma TumblingIsAMapIff(lib: Library, q: Aggregate, steps: seq<AggStep>)
    requires Runnable(q) && q.window.Tumbling?
    ensures Contents(lib, q, steps) <==> FlushesEarly(lib, q, steps) && BlanksLead(lib, q, steps)
  {
    hide Run, CellState, Short, FlushesEarly, BlanksLead, WindowEvents;
    if Safe(lib, q, steps) {
      SafeRun(lib, q, steps);
    } else {
      UnsafeShort(lib, q, steps);
      var keys: seq<string>, start: nat :|
        Short(Run(lib, q, steps).buckets, keys, start, WindowEvents(lib, q, steps, keys, start));
      ShortIsWrong(q, Run(lib, q, steps).buckets, keys, start, WindowEvents(lib, q, steps, keys, start));
    }
  }

  // ----- two buckets of one group and window

  lemma TwoWindows(lib: Library, q: Aggregate, a: Event, b: Event, clock: nat)
    requires Runnable(q) && q.window.Tumbling? && Passes(lib, q, a) && Passes(lib, q, b)
    requires GroupKeys(lib, q.groupBy, a.data) == GroupKeys(lib, q.groupBy, b.data)
    requires WindowOf(q, EffectiveTime(a, clock)) != WindowOf(q, EffectiveTime(b, clock))
    ensures
      var buckets, keys := Run(lib, q, [Arrive(a, clock), Arrive(b, clock)]).buckets, GroupKeys(lib, q.groupBy, a.data);
      && |buckets| == 2
      && InCell(buckets[0], keys, WindowOf(q, EffectiveTime(a, clock)))
      && InCell(buckets[1], keys, WindowOf(q, EffectiveTime(b, clock)))
  {
    hide Run, GroupKeys, Passes, Landed, Into, WindowOf;
    var s0, s1 := Arrive(a, clock), Arrive(b, clock);
    assert [s0][..0] == [] && [s0, s1][..1] == [s0];
    EmptyRun(lib, q);
    TumblingStep(lib, q, [s0]);
    TumblingStep(lib, q, [s0, s1]);
    var keys := GroupKeys(lib, q.groupBy, a.data);
    var n := LandedShape(q, [], keys, a.data, EffectiveTime(a, clock));
    var m := LandedShape(q, Run(lib, q, [s0]).buckets, keys, b.data, EffectiveTime(b, clock));
  }

  /** A run in which a flush leaves a group two buckets of one window, for any two accepted events of a group
      in different windows: a flush once the later window has begun. */
  lemma TwoBucketsMeet(lib: Library, q: Aggregate, a: Event, b: Event, clock: nat, now: nat)
    requires Runnable(q) && q.window.Tumbling? && Passes(lib, q, a) && Passes(lib, q, b)
    requires GroupKeys(lib, q.groupBy, a.data) == GroupKeys(lib, q.groupBy, b.data)
    requires WindowOf(q, EffectiveTime(a, clock)) < WindowOf(q, EffectiveTime(b, clock)) <= now
    ensures
      var buckets := Run(lib, q, [Arrive(a, clock), Arrive(b, clock), Flush(now)]).buckets;
      |buckets| == 2 && InCell(buckets[0], buckets[1].keys, buckets[1].start)
  {
    hide Run, GroupKeys, Passes, Kept, WindowOf;
    TwoWindows(lib, q, a, b, clock);
    var steps := [Arrive(a, clock), Arrive(b, clock), Flush(now)];
    assert steps[..2] == [Arrive(a, clock), Arrive(b, clock)];
    TumblingStep(lib, q, steps);
    var buckets := Run(lib, q, steps[..2]).buckets;
    WindowsMeetIff(q.window, buckets, now, 0, 1);
    TumblingFlush(q.window, buckets, now);
  }
}
