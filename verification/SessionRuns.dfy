/** The main theorems about session windows: when emitted and live sessions together are exactly the
    buckets of the gap partition, group by group, for arbitrary clock values of the timer. */
module SessionRuns {
  import opened Values
  import opened Aggregation
  import opened AggregateSpec
  import opened AggregateRuns
  import opened SessionWindows
  import opened SessionSteps

  // ----- what the theorems assume, and what decides

  /** Accepted events arrive in time order. Nothing is said about the clocks of the timer. */
  ghost predicate InOrder(lib: Library, q: Aggregate, steps: seq<AggStep>) {
    forall i, j :: 0 <= i < j < |steps| && IsAccepted(lib, q, steps[i]) && IsAccepted(lib, q, steps[j])
      ==> StepTime(steps[i]) <= StepTime(steps[j])
  }

  /** The group's last session is still live: since its last event no flush found it timed out, in the
      unsigned arithmetic of the callback. */
  ghost predicate Awake(lib: Library, q: Aggregate, steps: seq<AggStep>, keys: seq<string>)
    requires q.window.Session?
  {
    steps != [] &&
    var prefix, s := steps[..|steps| - 1], steps[|steps| - 1];
    Joins(lib, q, s, keys) || (Awake(lib, q, prefix, keys) && (s.Flush? ==> Spares(lib, q, prefix, keys, s.now)))
  }

  ghost predicate Spares(lib: Library, q: Aggregate, steps: seq<AggStep>, keys: seq<string>, now: nat)
    requires q.window.Session?
  {
    SubU64(now, EndTime(GroupEvents(lib, q, steps, keys))) < TimeoutNs(q.window)
  }

  /** An event at `t` would still belong to the group's last session. */
  ghost predicate InTime(lib: Library, q: Aggregate, steps: seq<AggStep>, keys: seq<string>, t: nat)
    requires q.window.Session?
  {
    var evs := GroupEvents(lib, q, steps, keys);
    evs != [] && t - EndTime(evs) < TimeoutNs(q.window)
  }

  /** Every event of the group that is in time for the last session still finds it live. */
  ghost predicate Unsplit(lib: Library, q: Aggregate, steps: seq<AggStep>, keys: seq<string>)
    requires q.window.Session?
  {
    steps == [] ||
    var prefix, s := steps[..|steps| - 1], steps[|steps| - 1];
    && Unsplit(lib, q, prefix, keys)
    && (Joins(lib, q, s, keys) && InTime(lib, q, prefix, keys, StepTime(s)) ==> Awake(lib, q, prefix, keys))
  }

  /** An event without data at `t` would be taken into some group's live session. */
  ghost predicate Intrudes(lib: Library, q: Aggregate, steps: seq<AggStep>, t: nat)
    requires q.window.Session?
  {
    exists keys: seq<string> :: |keys| == |q.groupBy| && Awake(lib, q, steps, keys) && InTime(lib, q, steps, keys, t)
  }

  /** No accepted event without data arrives while another group has a live session it is in time for. */
  ghost predicate BlanksKeepApart(lib: Library, q: Aggregate, steps: seq<AggStep>)
    requires q.window.Session?
  {
    steps == [] ||
    var prefix, s := steps[..|steps| - 1], steps[|steps| - 1];
    && BlanksKeepApart(lib, q, prefix)
    && (IsAccepted(lib, q, s) && !HasKeys(lib, q, s.event) ==> !Intrudes(lib, q, prefix, StepTime(s)))
  }

  // ----- times

  /** The time of the latest accepted event so far. */
  ghost function Latest(lib: Library, q: Aggregate, steps: seq<AggStep>): nat {
    if steps == [] then 0
    else if IsAccepted(lib, q, steps[|steps| - 1]) then StepTime(steps[|steps| - 1])
    else Latest(lib, q, steps[..|steps| - 1])
  }

  lemma {:induction false} LatestIsBefore(lib: Library, q: Aggregate, steps: seq<AggStep>, t: nat)
    requires forall i :: 0 <= i < |steps| && IsAccepted(lib, q, steps[i]) ==> StepTime(steps[i]) <= t
    ensures Latest(lib, q, steps) <= t
  {
    if steps != [] {
      var prefix := steps[..|steps| - 1];
      assert forall i :: 0 <= i < |prefix| ==> prefix[i] == steps[i];
      LatestIsBefore(lib, q, prefix, t);
    }
  }

  lemma InOrderPrefix(lib: Library, q: Aggregate, steps: seq<AggStep>)
    requires steps != [] && InOrder(lib, q, steps)
    ensures InOrder(lib, q, steps[..|steps| - 1]) && Latest(lib, q, steps[..|steps| - 1]) <= Latest(lib, q, steps)
  {
    var prefix, s := steps[..|steps| - 1], steps[|steps| - 1];
    assert forall i :: 0 <= i < |prefix| ==> prefix[i] == steps[i];
    if IsAccepted(lib, q, s) {
      LatestIsBefore(lib, q, prefix, StepTime(s));
    }
  }

  lemma {:induction false} GroupEventsSorted(lib: Library, q: Aggregate, steps: seq<AggStep>, keys: seq<string>)
    requires InOrder(lib, q, steps)
    ensures Sorted(GroupEvents(lib, q, steps, keys))
    ensures EndTime(GroupEvents(lib, q, steps, keys)) <= Latest(lib, q, steps)
  {
    if steps != [] {
      var prefix, s := steps[..|steps| - 1], steps[|steps| - 1];
      InOrderPrefix(lib, q, steps);
      GroupEventsSorted(lib, q, prefix, keys);
      if Joins(lib, q, s, keys) {
        SortedAppend(GroupEvents(lib, q, prefix, keys), (s.event, StepTime(s)));
      }
    }
  }

  // ----- over a run

  /** Everything an arrival does, it does to a bucket of its own group. */
  lemma ArrivalIsIsolated(lib: Library, q: Aggregate, prefix: seq<AggStep>, e: Event, t: nat)
    requires Runnable(q) && q.window.Session? && Basics(q, Run(lib, q, prefix).buckets, t)
    requires HasKeys(lib, q, e) || !Intrudes(lib, q, prefix, t)
    requires forall keys: seq<string> :: |keys| == |q.groupBy| ==>
      && EndTime(GroupEvents(lib, q, prefix, keys)) <= t
      && GroupLive(q, Run(lib, q, prefix).buckets, keys, EndTime(GroupEvents(lib, q, prefix, keys)),
          Awake(lib, q, prefix, keys))
    ensures Isolated(q, Run(lib, q, prefix), GroupKeys(lib, q.groupBy, e.data), t)
  {
    hide Run, Awake;
    var st, own := Run(lib, q, prefix), GroupKeys(lib, q.groupBy, e.data);
    var i := SessionFor(q, st, own, t);
    if i >= 0 && !HasKeys(lib, q, e) {
      var b := st.buckets[i];
      assert b in st.buckets && Basic(q, b, t);
      if |b.keys| == |q.groupBy| {
        var end := EndTime(GroupEvents(lib, q, prefix, b.keys));
        assert !TimedOut(q, b, end);
        AwakeHasEvents(lib, q, prefix, b.keys);
      }
    } else if i >= 0 {
      assert st.buckets[i] in st.buckets && Basic(q, st.buckets[i], t);
    }
  }

  lemma {:induction false} AwakeHasEvents(lib: Library, q: Aggregate, steps: seq<AggStep>, keys: seq<string>)
    requires q.window.Session? && Awake(lib, q, steps, keys)
    ensures GroupEvents(lib, q, steps, keys) != []
  {
    if !Joins(lib, q, steps[|steps| - 1], keys) {
      AwakeHasEvents(lib, q, steps[..|steps| - 1], keys);
    }
  }

  lemma ExecutedIs(lib: Library, q: Aggregate, st: AggState, e: Event, clock: nat)
    requires Runnable(q) && q.window.Session? && Passes(lib, q, e)
    ensures Executed(lib, q, st, e, clock)
        == AfterArrival(q, st, GroupKeys(lib, q.groupBy, e.data), e.data, EffectiveTime(e, clock))
  {
    SessionExecuted(lib, q, st, e, clock);
  }

  /** What is known of a run before its last step when that step is an accepted arrival. */
  lemma BeforeArrival(lib: Library, q: Aggregate, steps: seq<AggStep>)
    requires Runnable(q) && q.window.Session? && InOrder(lib, q, steps) && BlanksKeepApart(lib, q, steps)
    requires steps != [] && IsAccepted(lib, q, steps[|steps| - 1])
    ensures
      var prefix, s := steps[..|steps| - 1], steps[|steps| - 1];
      && Basics(q, Run(lib, q, prefix).buckets, StepTime(s))
      && Isolated(q, Run(lib, q, prefix), GroupKeys(lib, q.groupBy, s.event.data), StepTime(s))
      && Run(lib, q, steps)
          == AfterArrival(q, Run(lib, q, prefix), GroupKeys(lib, q.groupBy, s.event.data), s.event.data, StepTime(s))
    decreases |steps|, 0
  {
    hide Awake, AfterArrival, GroupLive;
    var prefix, s := steps[..|steps| - 1], steps[|steps| - 1];
    InOrderPrefix(lib, q, steps);
    RunInvariant(lib, q, prefix, []);
    forall keys: seq<string> | |keys| == |q.groupBy|
      ensures EndTime(GroupEvents(lib, q, prefix, keys)) <= StepTime(s)
      ensures GroupLive(q, Run(lib, q, prefix).buckets, keys, EndTime(GroupEvents(lib, q, prefix, keys)),
          Awake(lib, q, prefix, keys))
    {
      GroupEventsSorted(lib, q, prefix, keys);
      RunInvariant(lib, q, prefix, keys);
    }
    ArrivalIsIsolated(lib, q, prefix, s.event, StepTime(s));
    ExecutedIs(lib, q, Run(lib, q, prefix), s.event, s.clock);
  }

  /** The live buckets of every group at every point of a run. */
  lemma {:induction false} RunInvariant(lib: Library, q: Aggregate, steps: seq<AggStep>, keys: seq<string>)
    requires Runnable(q) && q.window.Session? && InOrder(lib, q, steps) && BlanksKeepApart(lib, q, steps)
    ensures Basics(q, Run(lib, q, steps).buckets, Latest(lib, q, steps))
    ensures GroupLive(q, Run(lib, q, steps).buckets, keys, EndTime(GroupEvents(lib, q, steps, keys)),
        Awake(lib, q, steps, keys))
    decreases |steps|, 1
  {
    if steps != [] {
      hide AfterArrival, GroupLive, Basics, Isolated;
      var prefix, s := steps[..|steps| - 1], steps[|steps| - 1];
      var st := Run(lib, q, prefix);
      InOrderPrefix(lib, q, steps);
      RunInvariant(lib, q, prefix, keys);
      GroupEventsSorted(lib, q, steps, keys);
      var end, awake := EndTime(GroupEvents(lib, q, prefix, keys)), Awake(lib, q, prefix, keys);
      if s.Flush? {
        FlushKeepsBasics(q, st.buckets, s.now, Latest(lib, q, prefix));
        FlushKeepsGroupLive(q, st.buckets, s.now, Latest(lib, q, prefix), keys, end, awake);
      } else if IsAccepted(lib, q, s) {
        var t, own := StepTime(s), GroupKeys(lib, q.groupBy, s.event.data);
        BeforeArrival(lib, q, steps);
        GroupEventsSorted(lib, q, prefix, keys);
        ArrivalKeepsBasics(q, st, own, s.event.data, t, Latest(lib, q, prefix));
        if own == keys {
          OwnGroupLive(q, st, own, s.event.data, t, end, awake, t);
        } else {
          OtherGroupLive(q, st, own, s.event.data, t, keys, end, awake);
        }
      }
    }
  }

  lemma {:induction false} PartitionedUnlessSplit(lib: Library, q: Aggregate, steps: seq<AggStep>, keys: seq<string>)
    requires Runnable(q) && q.window.Session? && InOrder(lib, q, steps) && BlanksKeepApart(lib, q, steps)
    ensures Sorted(GroupEvents(lib, q, steps, keys))
    ensures PartitionedOrMore(q, Run(lib, q, steps), keys, GroupEvents(lib, q, steps, keys),
        Unsplit(lib, q, steps, keys))
    decreases |steps|
  {
    GroupEventsSorted(lib, q, steps, keys);
    if steps != [] {
      hide Sessions, AfterArrival, GroupLive, Basics, Isolated, OfGroup, Awake;
      var prefix, s := steps[..|steps| - 1], steps[|steps| - 1];
      var st, evs := Run(lib, q, prefix), GroupEvents(lib, q, prefix, keys);
      InOrderPrefix(lib, q, steps);
      PartitionedUnlessSplit(lib, q, prefix, keys);
      if s.Flush? {
        FlushKeepsPartition(q, st, s.now, keys);
      } else if IsAccepted(lib, q, s) {
        BeforeArrival(lib, q, steps);
        var own := GroupKeys(lib, q.groupBy, s.event.data);
        if own == keys {
          StepOfOwn(lib, q, steps, keys);
        } else {
          ArrivalCounts(q, st, own, s.event.data, StepTime(s), keys);
        }
      }
    }
  }

  lemma StepOfOwn(lib: Library, q: Aggregate, steps: seq<AggStep>, keys: seq<string>)
    requires Runnable(q) && q.window.Session? && InOrder(lib, q, steps) && BlanksKeepApart(lib, q, steps)
    requires steps != [] && Joins(lib, q, steps[|steps| - 1], keys)
    requires Sorted(GroupEvents(lib, q, steps[..|steps| - 1], keys))
    requires PartitionedOrMore(q, Run(lib, q, steps[..|steps| - 1]), keys,
        GroupEvents(lib, q, steps[..|steps| - 1], keys),
                               Unsplit(lib, q, steps[..|steps| - 1], keys))
    ensures Sorted(GroupEvents(lib, q, steps, keys))
    ensures PartitionedOrMore(q, Run(lib, q, steps), keys, GroupEvents(lib, q, steps, keys),
        Unsplit(lib, q, steps, keys))
  {
    hide Sessions, AfterArrival, GroupLive, Basics, Isolated, OfGroup, PartitionedOrMore, Run, Awake;
    var prefix, s := steps[..|steps| - 1], steps[|steps| - 1];
    var st, evs := Run(lib, q, prefix), GroupEvents(lib, q, prefix, keys);
    InOrderPrefix(lib, q, steps);
    BeforeArrival(lib, q, steps);
    RunInvariant(lib, q, prefix, keys);
    GroupEventsSorted(lib, q, prefix, keys);
    GroupEventsSorted(lib, q, steps, keys);
    if Awake(lib, q, prefix, keys) {
      AwakeHasEvents(lib, q, prefix, keys);
    }
    assert EndTime(evs) <= StepTime(s);
    OwnArrival(q, st, keys, evs, s.event, StepTime(s), Awake(lib, q, prefix, keys), Unsplit(lib, q, prefix, keys));
  }

  // ----- the condition, read off the list of steps

  /** Two consecutive accepted events of the group. */
  ghost predicate Consecutive(lib: Library, q: Aggregate, steps: seq<AggStep>, keys: seq<string>, i: int, j: int) {
    && 0 <= i < j < |steps| && Joins(lib, q, steps[i], keys) && Joins(lib, q, steps[j], keys)
    && forall m :: i < m < j ==> !Joins(lib, q, steps[m], keys)
  }

  /** No flush between two consecutive events of the group that belong together finds the first of
      them timed out; the callback subtracts its time from the clock in unsigned arithmetic. */
  ghost predicate FlushesSpare(lib: Library, q: Aggregate, steps: seq<AggStep>, keys: seq<string>)
    requires q.window.Session?
  {
    forall i, k, j :: Consecutive(lib, q, steps, keys, i, j) && i < k < j && steps[k].Flush?
                      && StepTime(steps[j]) - StepTime(steps[i]) < TimeoutNs(q.window)
      ==> SubU64(steps[k].now, StepTime(steps[i])) < TimeoutNs(q.window)
  }

  /** The position of the group's latest event, or -1. */
  ghost function LastJoin(lib: Library, q: Aggregate, steps: seq<AggStep>, keys: seq<string>): (i: int)
    ensures -1 <= i < |steps|
    ensures i >= 0 ==> Joins(lib, q, steps[i], keys)
    ensures forall m :: i < m < |steps| ==> !Joins(lib, q, steps[m], keys)
  {
    if steps == [] then -1
    else if Joins(lib, q, steps[|steps| - 1], keys) then |steps| - 1
    else LastJoin(lib, q, steps[..|steps| - 1], keys)
  }

  lemma {:induction false} LastJoinEnds(lib: Library, q: Aggregate, steps: seq<AggStep>, keys: seq<string>)
    ensures
      var i, evs := LastJoin(lib, q, steps, keys), GroupEvents(lib, q, steps, keys);
      (evs != [] <==> i >= 0) && (i >= 0 ==> EndTime(evs) == StepTime(steps[i]))
  {
    if steps != [] && !Joins(lib, q, steps[|steps| - 1], keys) {
      LastJoinEnds(lib, q, steps[..|steps| - 1], keys);
    }
  }

  ghost predicate SparedSince(lib: Library, q: Aggregate, steps: seq<AggStep>, i: int)
    requires q.window.Session? && 0 <= i < |steps|
  {
    forall k :: i < k < |steps| && steps[k].Flush? ==> SubU64(steps[k].now, StepTime(steps[i])) < TimeoutNs(q.window)
  }

  lemma {:induction false} AwakeIff(lib: Library, q: Aggregate, steps: seq<AggStep>, keys: seq<string>)
    requires q.window.Session?
    ensures
      var i := LastJoin(lib, q, steps, keys);
      Awake(lib, q, steps, keys) <==> i >= 0 && SparedSince(lib, q, steps, i)
  {
    if steps != [] && !Joins(lib, q, steps[|steps| - 1], keys) {
      var prefix, s, i := steps[..|steps| - 1], steps[|steps| - 1], LastJoin(lib, q, steps, keys);
      AwakeIff(lib, q, prefix, keys);
      LastJoinEnds(lib, q, prefix, keys);
      if i >= 0 {
        SparedStep(lib, q, steps, i);
      }
    }
  }

  lemma SparedStep(lib: Library, q: Aggregate, steps: seq<AggStep>, i: int)
    requires q.window.Session? && 0 <= i < |steps| - 1
    ensures
      var prefix, s := steps[..|steps| - 1], steps[|steps| - 1];
      SparedSince(lib, q, steps, i)
      <==> SparedSince(lib, q, prefix, i) && (s.Flush? ==> SubU64(s.now, StepTime(steps[i])) < TimeoutNs(q.window))
  {
    var prefix := steps[..|steps| - 1];
    assert forall k :: 0 <= k < |prefix| ==> prefix[k] == steps[k];
  }

  lemma {:induction false} UnsplitIff(lib: Library, q: Aggregate, steps: seq<AggStep>, keys: seq<string>)
    requires q.window.Session?
    ensures Unsplit(lib, q, steps, keys) <==> FlushesSpare(lib, q, steps, keys)
  {
    if steps != [] {
      hide Awake, SubU64, Spares;
      var n := |steps| - 1;
      UnsplitIff(lib, q, steps[..n], keys);
      AwakeIff(lib, q, steps[..n], keys);
      LastJoinEnds(lib, q, steps[..n], keys);
      SpareStep(lib, q, steps, keys);
    }
  }

  lemma SpareStep(lib: Library, q: Aggregate, steps: seq<AggStep>, keys: seq<string>)
    requires q.window.Session? && steps != []
    ensures
      var n := |steps| - 1;
      var i := LastJoin(lib, q, steps[..n], keys);
      var belongs := Joins(lib, q, steps[n], keys) && i >= 0
          && StepTime(steps[n]) - StepTime(steps[i]) < TimeoutNs(q.window);
      FlushesSpare(lib, q, steps, keys)
      <==> FlushesSpare(lib, q, steps[..n], keys) && (belongs ==> SparedSince(lib, q, steps[..n], i))
  {
    hide Joins, StepTime, SubU64, LastJoin;
    var n := |steps| - 1;
    var prefix := steps[..n];
    var last := LastJoin(lib, q, prefix, keys);
    assert forall m :: 0 <= m < n ==> prefix[m] == steps[m];
    forall i, j ensures Consecutive(lib, q, prefix, keys, i, j) <==> Consecutive(lib, q, steps, keys, i, j) && j < n {
    }
    forall i ensures Consecutive(lib, q, steps, keys, i, n) <==> Joins(lib, q, steps[n], keys) && i == last >= 0 {
    }
  }

  /** The theorem on session windows. Accepted events arrive in time order, those without data do not
      intrude on other groups, and the timer fires at arbitrary clock values. Then the sessions emitted
      so far and those still live are together exactly the buckets of the maximal runs of the group's
      events, if and only if no flush between two events that belong together finds the first timed
      out. */
  lemma ClockConditionIsExact(lib: Library, q: Aggregate, steps: seq<AggStep>, keys: seq<string>)
    requires Runnable(q) && q.window.Session? && InOrder(lib, q, steps) && BlanksKeepApart(lib, q, steps)
    ensures Sorted(GroupEvents(lib, q, steps, keys))
    ensures Partitioned(q, Run(lib, q, steps), keys, GroupEvents(lib, q, steps, keys))
        <==> FlushesSpare(lib, q, steps, keys)
  {
    hide Sessions, Partitioned, FlushesSpare, Unsplit, Run;
    PartitionedUnlessSplit(lib, q, steps, keys);
    UnsplitIff(lib, q, steps, keys);
    if Partitioned(q, Run(lib, q, steps), keys, GroupEvents(lib, q, steps, keys)) {
      PartitionedSize(q, Run(lib, q, steps), keys, GroupEvents(lib, q, steps, keys));
    }
  }

  /** Timer clocks in order with the accepted events around them, within 64 bits. */
  ghost predicate ClocksInOrder(lib: Library, q: Aggregate, steps: seq<AggStep>) {
    forall i, k :: 0 <= i < |steps| && 0 <= k < |steps| && IsAccepted(lib, q, steps[i]) && steps[k].Flush?
      ==> steps[k].now < U64 && (i < k ==> StepTime(steps[i]) <= steps[k].now)
          && (k < i ==> steps[k].now <= StepTime(steps[i]))
  }

  /** In particular the timer never splits, merges, drops or repeats a session when its clock is in
      order with the events. */
  lemma SessionsAreTheGapPartition(lib: Library, q: Aggregate, steps: seq<AggStep>, keys: seq<string>)
    requires Runnable(q) && q.window.Session? && InOrder(lib, q, steps) && BlanksKeepApart(lib, q, steps)
    requires ClocksInOrder(lib, q, steps)
    ensures Sorted(GroupEvents(lib, q, steps, keys))
    ensures Partitioned(q, Run(lib, q, steps), keys, GroupEvents(lib, q, steps, keys))
  {
    hide Partitioned, Run;
    forall i, k, j | Consecutive(lib, q, steps, keys, i, j) && i < k < j && steps[k].Flush?
                     && StepTime(steps[j]) - StepTime(steps[i]) < TimeoutNs(q.window)
      ensures SubU64(steps[k].now, StepTime(steps[i])) < TimeoutNs(q.window)
    {
      NoWrap(steps[k].now, StepTime(steps[i]));
    }
    ClockConditionIsExact(lib, q, steps, keys);
  }

  lemma NoWrap(a: nat, b: nat)
    requires b <= a < U64
    ensures SubU64(a, b) == a - b
  {
  }

  /** Without events lacking data there is nothing to keep apart. */
  lemma {:induction false} KeyedKeepApart(lib: Library, q: Aggregate, steps: seq<AggStep>)
    requires q.window.Session?
    requires forall i :: 0 <= i < |steps| && IsAccepted(lib, q, steps[i]) ==> HasKeys(lib, q, steps[i].event)
    ensures BlanksKeepApart(lib, q, steps)
  {
    hide Intrudes;
    if steps != [] {
      var prefix := steps[..|steps| - 1];
      assert forall i :: 0 <= i < |prefix| ==> prefix[i] == steps[i];
      KeyedKeepApart(lib, q, prefix);
    }
  }

  lemma GroupEventsAppend(lib: Library, q: Aggregate, steps: seq<AggStep>, s: AggStep, keys: seq<string>)
    ensures GroupEvents(lib, q, steps + [s], keys)
         == GroupEvents(lib, q, steps, keys) + if Joins(lib, q, s, keys) then [(s.event, StepTime(s))] else []
  {
    hide Joins;
    assert (steps + [s])[..|steps|] == steps;
  }

  /** A clock that lags behind an event splits its session: the subtraction wraps. With session(1ms),
      an event at 10, a flush at 5 and an event at 20, the two make one session but not one bucket. */
  lemma LaggingClockSplitsASession(lib: Library)
    ensures
      var q := Aggregate([AggFunc(Count, None, 0.0)], [], None, Session(1));
      var steps := [Arrive(Event(Log, 10, None, None), 0), Flush(5), Arrive(Event(Log, 20, None, None), 0)];
      && Runnable(q) && InOrder(lib, q, steps) && BlanksKeepApart(lib, q, steps)
      && Sorted(GroupEvents(lib, q, steps, [])) && |Sessions(q, [], GroupEvents(lib, q, steps, []))| == 1
      && !Partitioned(q, Run(lib, q, steps), [], GroupEvents(lib, q, steps, []))
  {
    hide Partitioned, Run;
    var q := Aggregate([AggFunc(Count, None, 0.0)], [], None, Session(1));
    var a, b, c := Arrive(Event(Log, 10, None, None), 0), Flush(5), Arrive(Event(Log, 20, None, None), 0);
    var steps := [a, b, c];
    KeyedKeepApart(lib, q, steps);
    assert Consecutive(lib, q, steps, [], 0, 2) && SubU64(5, 10) >= TimeoutNs(q.window);
    ClockConditionIsExact(lib, q, steps, []);
    TwoInOneSession(lib, q, a, b, c);
  }

  lemma TwoInOneSession(lib: Library, q: Aggregate, a: AggStep, b: AggStep, c: AggStep)
    requires q.window.Session? && InOrder(lib, q, [a, b, c]) && a.Arrive? && c.Arrive?
    requires Joins(lib, q, a, []) && !Joins(lib, q, b, []) && Joins(lib, q, c, [])
    requires StepTime(c) - StepTime(a) < TimeoutNs(q.window)
    ensures Sorted(GroupEvents(lib, q, [a, b, c], [])) && |Sessions(q, [], GroupEvents(lib, q, [a, b, c], []))| == 1
  {
    hide Joins;
    GroupEventsSorted(lib, q, [a, b, c], []);
    GroupEventsAppend(lib, q, [], a, []);
    GroupEventsAppend(lib, q, [a], b, []);
    GroupEventsAppend(lib, q, [a, b], c, []);
    assert [] + [a] == [a] && [a] + [b] == [a, b] && [a, b] + [c] == [a, b, c];
    var x, y := (a.event, StepTime(a)), (c.event, StepTime(c));
    assert GroupEvents(lib, q, [a, b, c], []) == [x, y];
    assert [x, y][..1] == [x] && GapRuns([x], TimeoutNs(q.window)) == [[x]];
    assert Gap([x, y], 1) < TimeoutNs(q.window);
  }
}
