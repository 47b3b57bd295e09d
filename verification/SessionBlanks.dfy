/** Accepted events without data in grouped session queries: over time-ordered runs every group has its
    gap partition exactly when such events keep apart from the other groups' live sessions and the
    flushes spare every session. */
module SessionBlanks {
  import opened Values
  import opened Aggregation
  import opened AggregateSpec
  import opened AggregateRuns
  import opened GroupCounts
  import opened SessionWindows
  import opened SessionSteps
  import opened SessionRuns

  // ----- events counted into a group

  /** The events counted into the buckets a group has had. */
  function EventsIn(st: AggState, keys: seq<string>): nat {
    Total(OfGroup(st.emitted, keys)) + Total(OfGroup(st.buckets, keys))
  }

  lemma FlushKeepsEvents(q: Aggregate, st: AggState, now: nat, keys: seq<string>)
    requires q.window.Session?
    ensures EventsIn(Flushed(q.window, st, now), keys) == EventsIn(st, keys)
  {
    hide Kept, Emits, OfGroup, Total;
    FlushKeepsPartition(q, st, now, keys);
    var st' := Flushed(q.window, st, now);
    SameTotals(OfGroup(st'.emitted, keys), OfGroup(st'.buckets, keys), OfGroup(st.emitted, keys),
        OfGroup(st.buckets, keys));
  }

  /** An arrival is counted into one bucket, and so into that bucket's group. */
  lemma ArrivalCountsOnce(q: Aggregate, st: AggState, own: seq<string>, data: Option<Json>, t: nat, keys: seq<string>)
    requires q.window.Session?
    ensures
      var i := SessionFor(q, st, own, t);
      var into := if i >= 0 then st.buckets[i].keys else own;
      EventsIn(AfterArrival(q, st, own, data, t), keys) == EventsIn(st, keys) + if into == keys then 1 else 0
  {
    hide Total, OfGroup;
    var i := SessionFor(q, st, own, t);
    if i >= 0 {
      UpdatedKeeps(q, st.buckets[i], data, t);
      ReplacedCounts(st.buckets, i, Updated(q, st.buckets[i], data, t), keys);
    } else {
      UpdatedKeeps(q, FreshBucket(own, t, NO_END), data, t);
      AppendedCounts(st.buckets, Updated(q, FreshBucket(own, t, NO_END), data, t), keys);
    }
  }

  /** Over every run whatever, live buckets have all keys or none. */
  lemma {:induction false} RunKeys(lib: Library, q: Aggregate, steps: seq<AggStep>)
    requires Runnable(q) && q.window.Session?
    ensures forall b :: b in Run(lib, q, steps).buckets ==> b.keys == [] || |b.keys| == |q.groupBy|
  {
    if steps != [] {
      var prefix, s := steps[..|steps| - 1], steps[|steps| - 1];
      RunKeys(lib, q, prefix);
      var st, st' := Run(lib, q, prefix), Run(lib, q, steps);
      forall b | b in st'.buckets ensures b.keys == [] || |b.keys| == |q.groupBy| {
        if s.Flush? {
          FlushMembers(q.window, st.buckets, s.now, b);
        } else if IsAccepted(lib, q, s) {
          ArrivalKeys(lib, q, st, s.event, s.clock, b);
        }
      }
    }
  }

  lemma ArrivalKeys(lib: Library, q: Aggregate, st: AggState, e: Event, clock: nat, b: Bucket)
    requires Runnable(q) && q.window.Session? && Passes(lib, q, e)
    requires forall x :: x in st.buckets ==> x.keys == [] || |x.keys| == |q.groupBy|
    requires b in Executed(lib, q, st, e, clock).buckets
    ensures b.keys == [] || |b.keys| == |q.groupBy|
  {
    hide AfterArrival;
    var own, t := GroupKeys(lib, q.groupBy, e.data), EffectiveTime(e, clock);
    ExecutedIs(lib, q, st, e, clock);
    var i := Touched(q, st, own, e.data, t);
    var st' := AfterArrival(q, st, own, e.data, t);
    var k :| 0 <= k < |st'.buckets| && st'.buckets[k] == b;
    assert k < |st.buckets| ==> st.buckets[k] in st.buckets;
  }

  /** A group never loses events, and each of its own adds one. */
  lemma StepKeepsEvents(lib: Library, q: Aggregate, steps: seq<AggStep>, keys: seq<string>)
    requires Runnable(q) && q.window.Session? && steps != [] && |keys| == |q.groupBy|
    ensures
      var n := |steps| - 1;
      EventsIn(Run(lib, q, steps), keys) >= EventsIn(Run(lib, q, steps[..n]), keys) + if Joins(lib, q, steps[n], keys)
          then 1 else 0
  {
    hide AfterArrival, EventsIn, Flushed;
    var prefix, s := steps[..|steps| - 1], steps[|steps| - 1];
    var st := Run(lib, q, prefix);
    if s.Flush? {
      FlushKeepsEvents(q, st, s.now, keys);
    } else if IsAccepted(lib, q, s) {
      var own, t := GroupKeys(lib, q.groupBy, s.event.data), StepTime(s);
      RunKeys(lib, q, prefix);
      ExecutedIs(lib, q, st, s.event, s.clock);
      ArrivalCountsOnce(q, st, own, s.event.data, t, keys);
      var i := SessionFor(q, st, own, t);
      if own == keys && i >= 0 {
        assert st.buckets[i] in st.buckets && SameGroup(st.buckets[i].keys, own);
      }
    }
  }

  lemma {:induction false} AtLeastItsOwn(lib: Library, q: Aggregate, steps: seq<AggStep>, keys: seq<string>)
    requires Runnable(q) && q.window.Session? && |keys| == |q.groupBy|
    ensures EventsIn(Run(lib, q, steps), keys) >= |GroupEvents(lib, q, steps, keys)|
  {
    if steps != [] {
      hide EventsIn, Joins, Run;
      AtLeastItsOwn(lib, q, steps[..|steps| - 1], keys);
      StepKeepsEvents(lib, q, steps, keys);
    }
  }

  // ----- events in the partition

  lemma {:induction false} SessionsHoldTheEvents(q: Aggregate, keys: seq<string>, evs: seq<Stamped>)
    requires q.window.Session? && Sorted(evs)
    ensures Total(Sessions(q, keys, evs)) == |evs|
  {
    if evs != [] {
      hide Sessions;
      var n := |evs| - 1;
      var x, s := evs[n], Sessions(q, keys, evs[..n]);
      assert evs == evs[..n] + [x];
      SessionsHoldTheEvents(q, keys, evs[..n]);
      SessionsAfter(q, keys, evs[..n], x);
      if n > 0 && x.1 - EndTime(evs[..n]) < TimeoutNs(q.window) {
        var k := |s| - 1;
        UpdatedKeeps(q, s[k], x.0.data, x.1);
        TotalUpdate(s, k, Updated(q, s[k], x.0.data, x.1));
      } else {
        var b := Updated(q, FreshBucket(keys, x.1, NO_END), x.0.data, x.1);
        UpdatedKeeps(q, FreshBucket(keys, x.1, NO_END), x.0.data, x.1);
        TotalAppend(s, [b]);
        OfGroupOne(b, keys);
      }
    } else {
      OfGroupOne(FreshBucket([], 0, 0), []);
    }
  }

  lemma PartitionHoldsTheEvents(q: Aggregate, st: AggState, keys: seq<string>, evs: seq<Stamped>)
    requires q.window.Session? && Sorted(evs) && Partitioned(q, st, keys, evs)
    ensures EventsIn(st, keys) == |evs|
  {
    hide Sessions, Total, OfGroup;
    var s := Sessions(q, keys, evs);
    SessionsHoldTheEvents(q, keys, evs);
    TotalAppend(OfGroup(st.emitted, keys), OfGroup(st.buckets, keys));
    TotalOfBag(OfGroup(st.emitted, keys) + OfGroup(st.buckets, keys), s);
  }

  // ----- a bucket without keys is older than every session that is still open

  /** Whatever stands before a bucket without keys had timed out when that bucket was made. */
  ghost predicate Layered(q: Aggregate, buckets: seq<Bucket>)
    requires q.window.Session?
  {
    forall i, j :: 0 <= i < j < |buckets| && buckets[j].keys == [] ==> TimedOut(q, buckets[i], buckets[j].start)
  }

  lemma ArrivalKeepsLayers(q: Aggregate, st: AggState, own: seq<string>, data: Option<Json>, t: nat)
    requires q.window.Session? && Basics(q, st.buckets, t) && Isolated(q, st, own, t) && Layered(q, st.buckets)
    ensures Layered(q, AfterArrival(q, st, own, data, t).buckets)
  {
    hide AfterArrival;
    var st' := AfterArrival(q, st, own, data, t);
    var found := SessionFor(q, st, own, t);
    var n := Touched(q, st, own, data, t);
    forall i, j | 0 <= i < j < |st'.buckets| && st'.buckets[j].keys == []
      ensures TimedOut(q, st'.buckets[i], st'.buckets[j].start)
    {
      assert i < |st.buckets| && st.buckets[i] in st.buckets && Basic(q, st.buckets[i], t);
      if j == n && found < 0 {
        assert !IsOpenSession(own, t, TimeoutNs(q.window))(st.buckets[i]);
      } else {
        assert st.buckets[j] in st.buckets && Basic(q, st.buckets[j], t);
        assert TimedOut(q, st.buckets[i], st.buckets[j].start);
      }
    }
  }

  lemma FlushKeepsLayers(q: Aggregate, buckets: seq<Bucket>, now: nat)
    requires q.window.Session? && Layered(q, buckets)
    ensures Layered(q, Kept(q.window, buckets, now))
  {
    hide Kept;
    var from := KeptFrom(q.window, buckets, now);
    forall i, j | 0 <= i < j < |from| && buckets[from[j]].keys == []
      ensures TimedOut(q, buckets[from[i]], buckets[from[j]].start)
    {
      assert from[i] < from[j];
    }
  }

  lemma {:induction false} RunIsLayered(lib: Library, q: Aggregate, steps: seq<AggStep>)
    requires Runnable(q) && q.window.Session? && q.groupBy != [] && InOrder(lib, q, steps)
    requires BlanksKeepApart(lib, q, steps)
    ensures Layered(q, Run(lib, q, steps).buckets)
  {
    if steps != [] {
      hide AfterArrival, Layered, Isolated, Basics;
      var prefix, s := steps[..|steps| - 1], steps[|steps| - 1];
      InOrderPrefix(lib, q, steps);
      RunIsLayered(lib, q, prefix);
      if s.Flush? {
        FlushKeepsLayers(q, Run(lib, q, prefix).buckets, s.now);
      } else if IsAccepted(lib, q, s) {
        BeforeArrival(lib, q, steps);
        ArrivalKeepsLayers(q, Run(lib, q, prefix), GroupKeys(lib, q.groupBy, s.event.data), s.event.data, StepTime(s));
      }
    } else {
      assert Run(lib, q, steps).buckets == [];
    }
  }

  // ----- an intruder is counted into the wrong group, for good

  /** Some group with keys has been credited with more events than it had. */
  ghost predicate Overcounted(lib: Library, q: Aggregate, steps: seq<AggStep>, keys: seq<string>)
    requires Runnable(q) && q.window.Session?
  {
    |keys| == |q.groupBy| && EventsIn(Run(lib, q, steps), keys) > |GroupEvents(lib, q, steps, keys)|
  }

  lemma LayersBelow(q: Aggregate, buckets: seq<Bucket>, k: nat, i: nat)
    requires q.window.Session? && Layered(q, buckets) && k < |buckets| && i < |buckets|
    ensures k < i && buckets[i].keys == [] ==> TimedOut(q, buckets[k], buckets[i].start)
  {
    hide TimedOut;
  }

  /** The session an intruder finds is one of a group with keys. */
  lemma IntruderFinds(lib: Library, q: Aggregate, prefix: seq<AggStep>, t: nat) returns (i: nat)
    requires Runnable(q) && q.window.Session? && q.groupBy != [] && InOrder(lib, q, prefix)
    requires BlanksKeepApart(lib, q, prefix)
    requires Latest(lib, q, prefix) <= t && Intrudes(lib, q, prefix, t)
    ensures
      var st := Run(lib, q, prefix);
      i < |st.buckets| && i == SessionFor(q, st, [], t) && |st.buckets[i].keys| == |q.groupBy|
  {
    hide Run, Awake, Layered;
    var st := Run(lib, q, prefix);
    var keys: seq<string> :| |keys| == |q.groupBy| && Awake(lib, q, prefix, keys) && InTime(lib, q, prefix, keys, t);
    var end := EndTime(GroupEvents(lib, q, prefix, keys));
    GroupEventsSorted(lib, q, prefix, keys);
    RunInvariant(lib, q, prefix, keys);
    RunIsLayered(lib, q, prefix);
    var k :| 0 <= k < |st.buckets| && st.buckets[k].keys == keys && st.buckets[k].last == end;
    assert st.buckets[k] in st.buckets && Basic(q, st.buckets[k], Latest(lib, q, prefix));
    assert IsOpenSession([], t, TimeoutNs(q.window))(st.buckets[k]);
    i := SessionFor(q, st, [], t);
    assert st.buckets[i] in st.buckets && Basic(q, st.buckets[i], Latest(lib, q, prefix));
    LayersBelow(q, st.buckets, k, i);
  }

  lemma {:induction false} IntrudersOvercount(lib: Library, q: Aggregate, steps: seq<AggStep>)
    returns (keys: seq<string>)
    requires Runnable(q) && q.window.Session? && InOrder(lib, q, steps) && !BlanksKeepApart(lib, q, steps)
    ensures Overcounted(lib, q, steps, keys)
  {
    hide EventsIn, AfterArrival, Intrudes, Basics, Isolated;
    var prefix, s := steps[..|steps| - 1], steps[|steps| - 1];
    InOrderPrefix(lib, q, steps);
    if !BlanksKeepApart(lib, q, prefix) {
      keys := IntrudersOvercount(lib, q, prefix);
      StepKeepsEvents(lib, q, steps, keys);
    } else {
      var st, t := Run(lib, q, prefix), StepTime(s);
      var i := IntruderFinds(lib, q, prefix, t);
      keys := st.buckets[i].keys;
      AtLeastItsOwn(lib, q, prefix, keys);
      ExecutedIs(lib, q, st, s.event, s.clock);
      ArrivalCountsOnce(q, st, [], s.event.data, t, keys);
    }
  }

  ghost predicate AllPartitioned(lib: Library, q: Aggregate, steps: seq<AggStep>)
    requires Runnable(q) && q.window.Session?
  {
    forall keys: seq<string> :: Sorted(GroupEvents(lib, q, steps, keys))
        && Partitioned(q, Run(lib, q, steps), keys, GroupEvents(lib, q, steps, keys))
  }

  /** Over every run with accepted events in time order, whatever the clocks of the timer and whether
      events have data or not: all groups have their gap partitions if and only if no event without
      data meets a live session of another group that it is in time for, and no flush between two
      events that belong together finds the first timed out. */
  lemma AllPartitionedIff(lib: Library, q: Aggregate, steps: seq<AggStep>)
    requires Runnable(q) && q.window.Session? && InOrder(lib, q, steps)
    ensures AllPartitioned(lib, q, steps)
       <==> BlanksKeepApart(lib, q, steps) && forall keys: seq<string> :: FlushesSpare(lib, q, steps, keys)
  {
    hide Partitioned, FlushesSpare, Run, EventsIn;
    if BlanksKeepApart(lib, q, steps) {
      forall keys: seq<string>
        ensures Sorted(GroupEvents(lib, q, steps, keys))
        ensures Partitioned(q, Run(lib, q, steps), keys, GroupEvents(lib, q, steps, keys))
            <==> FlushesSpare(lib, q, steps, keys)
      {
        ClockConditionIsExact(lib, q, steps, keys);
      }
    } else {
      var keys := IntrudersOvercount(lib, q, steps);
      GroupEventsSorted(lib, q, steps, keys);
      if AllPartitioned(lib, q, steps) {
        PartitionHoldsTheEvents(q, Run(lib, q, steps), keys, GroupEvents(lib, q, steps, keys));
      }
    }
  }

  /** A run in which an event without data intrudes, for every grouped query: it comes after an event with
      data and in time for its session. */
  lemma IntruderBreaksThePartition(lib: Library, q: Aggregate, a: AggStep, blank: AggStep)
    requires Runnable(q) && q.window.Session? && q.groupBy != []
    requires a.Arrive? && blank.Arrive? && IsAccepted(lib, q, a) && IsAccepted(lib, q, blank)
    requires HasKeys(lib, q, a.event) && !HasKeys(lib, q, blank.event)
    requires StepTime(a) <= StepTime(blank) < StepTime(a) + TimeoutNs(q.window)
    ensures InOrder(lib, q, [a, blank]) && !AllPartitioned(lib, q, [a, blank])
  {
    hide IsAccepted, HasKeys, AllPartitioned, GroupKeys;
    var keys := GroupKeys(lib, q.groupBy, a.event.data);
    KeysOfEvent(lib, q, a.event);
    assert [a, blank][..1] == [a] && [a][..0] == [];
    assert Joins(lib, q, a, keys) && GroupEvents(lib, q, [a], keys) == [(a.event, StepTime(a))];
    assert Awake(lib, q, [a], keys) && InTime(lib, q, [a], keys, StepTime(blank));
    assert Intrudes(lib, q, [a], StepTime(blank));
    assert !BlanksKeepApart(lib, q, [a, blank]);
    AllPartitionedIff(lib, q, [a, blank]);
  }
}
