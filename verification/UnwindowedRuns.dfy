/** Queries without a window: the bucket list is a map from group keys to batch results. */
module UnwindowedRuns {
  import opened Values
  import opened Aggregation
  import opened AggregateSpec
  import opened AggregateRuns
  import opened GroupCounts

  /** The bucket of all events of a group. */
  function GroupBucket(q: Aggregate, keys: seq<string>, evs: seq<Stamped>): Bucket {
    Folded(q, FreshBucket(keys, 0, NO_END), evs)
  }

  /** The results a group has seen so far: one per event, each over all its events up to then. */
  function GroupResults(q: Aggregate, keys: seq<string>, evs: seq<Stamped>): seq<Bucket> {
    if evs == [] then [] else GroupResults(q, keys, evs[..|evs| - 1]) + [GroupBucket(q, keys, evs)]
  }

  ghost predicate MapState(q: Aggregate, st: AggState, keys: seq<string>, evs: seq<Stamped>) {
    && OfGroup(st.buckets, keys) == (if evs == [] then [] else [GroupBucket(q, keys, evs)])
    && OfGroup(st.emitted, keys) == GroupResults(q, keys, evs)
  }

  /** Every bucket spans all time and is of a group with keys or of the events without data. */
  ghost predicate AllUnwindowed(q: Aggregate, buckets: seq<Bucket>) {
    forall k :: 0 <= k < |buckets| ==> WholeTime(q, buckets[k])
  }

  predicate WholeTime(q: Aggregate, b: Bucket) {
    b.start == 0 && b.end == NO_END && (b.keys == [] || |b.keys| == |q.groupBy|)
  }

  ghost function Slot(buckets: seq<Bucket>, keys: seq<string>): int {
    FindNewest(buckets, IsUnwindowed(keys))
  }

  lemma UnwindowedExecuted(lib: Library, q: Aggregate, st: AggState, e: Event, clock: nat)
    requires Runnable(q) && q.window.NoWindow? && Passes(lib, q, e)
    ensures var t, keys := EffectiveTime(e, clock), GroupKeys(lib, q.groupBy, e.data);
            var i := Slot(st.buckets, keys);
            var b := Updated(q, if i >= 0 then st.buckets[i] else FreshBucket(keys, 0, NO_END), e.data, t);
            Executed(lib, q, st, e, clock)
            == AggState(if i >= 0 then st.buckets[i := b] else st.buckets + [b], st.emitted + [b])
  {
    var t, keys := EffectiveTime(e, clock), GroupKeys(lib, q.groupBy, e.data);
    var pl := Placed(q.window, st.buckets, keys, t);
    assert pl.chosen == [pl.chosen[0]];
    assert UpdateEach(q, pl.buckets, [], e.data, t) == pl.buckets;
    var n, created := |st.buckets|, FreshBucket(keys, 0, NO_END);
    assert (st.buckets + [created])[n := Updated(q, created, e.data, t)]
        == st.buckets + [Updated(q, created, e.data, t)];
  }

  /** The arrival, if it is put into an existing bucket, is put into its own group's. */
  ghost predicate Isolated(st: AggState, keys: seq<string>) {
    Slot(st.buckets, keys) >= 0 ==> st.buckets[Slot(st.buckets, keys)].keys == keys
  }

  /** The slot of a group holds that group's bucket, and is found when the group has one. */
  lemma SlotIsTheGroup(q: Aggregate, st: AggState, keys: seq<string>)
    requires AllUnwindowed(q, st.buckets) && Isolated(st, keys) && |OfGroup(st.buckets, keys)| <= 1
    ensures
      var i := Slot(st.buckets, keys);
      if i >= 0 then OfGroup(st.buckets, keys) == [st.buckets[i]] else OfGroup(st.buckets, keys) == []
  {
    var i := Slot(st.buckets, keys);
    if i >= 0 {
      assert st.buckets[i] in st.buckets;
      OfGroupMember(st.buckets, keys, st.buckets[i]);
    }
    if OfGroup(st.buckets, keys) != [] {
      var b := OfGroup(st.buckets, keys)[0];
      OfGroupMember(st.buckets, keys, b);
      assert b in st.buckets && IsUnwindowed(keys)(b);
    }
  }

  /** One event, seen from its own group. */
  lemma ArrivalExtendsItsGroup(lib: Library, q: Aggregate, st: AggState, e: Event, clock: nat, evs: seq<Stamped>)
    requires Runnable(q) && q.window.NoWindow? && Passes(lib, q, e) && AllUnwindowed(q, st.buckets)
    requires Isolated(st, GroupKeys(lib, q.groupBy, e.data)) && MapState(q, st, GroupKeys(lib, q.groupBy, e.data), evs)
    ensures
      var keys := GroupKeys(lib, q.groupBy, e.data);
      MapState(q, Executed(lib, q, st, e, clock), keys, evs + [(e, EffectiveTime(e, clock))])
  {
    var t, keys := EffectiveTime(e, clock), GroupKeys(lib, q.groupBy, e.data);
    var i := Slot(st.buckets, keys);
    UnwindowedExecuted(lib, q, st, e, clock);
    SlotIsTheGroup(q, st, keys);
    UpdatedKeeps(q, if i >= 0 then st.buckets[i] else FreshBucket(keys, 0, NO_END), e.data, t);
    FoldedAppend(q, FreshBucket(keys, 0, NO_END), evs, (e, t));
    ExtendGroup(q, st, i, keys, evs, (e, t));
  }

  lemma ExtendGroup(q: Aggregate, st: AggState, i: int, keys: seq<string>, evs: seq<Stamped>, x: Stamped)
    requires MapState(q, st, keys, evs) && i < |st.buckets|
    requires
      if i >= 0 then st.buckets[i].keys == keys && OfGroup(st.buckets, keys) == [st.buckets[i]]
      else OfGroup(st.buckets, keys) == []
    requires GroupBucket(q, keys, evs + [x]).keys == keys
    ensures var b := GroupBucket(q, keys, evs + [x]);
            var buckets := if i >= 0 then st.buckets[i := b] else st.buckets + [b];
            MapState(q, AggState(buckets, st.emitted + [b]), keys, evs + [x])
  {
    var b := GroupBucket(q, keys, evs + [x]);
    ResultsAppend(q, keys, evs, x);
    OneOfGroup(st.emitted, b, keys);
    if i >= 0 {
      OfGroupUpdate(st.buckets, i, b, keys);
    } else {
      OneOfGroup(st.buckets, b, keys);
    }
  }

  lemma ResultsAppend(q: Aggregate, keys: seq<string>, evs: seq<Stamped>, x: Stamped)
    ensures GroupResults(q, keys, evs + [x]) == GroupResults(q, keys, evs) + [GroupBucket(q, keys, evs + [x])]
  {
    assert (evs + [x])[..|evs|] == evs;
  }

  lemma OneOfGroup(buckets: seq<Bucket>, b: Bucket, keys: seq<string>)
    ensures OfGroup(buckets + [b], keys) == OfGroup(buckets, keys) + if b.keys == keys then [b] else []
  {
    assert (buckets + [b])[..|buckets|] == buckets;
  }

  /** One event, seen from another group. */
  lemma ArrivalKeepsOtherGroups(lib: Library, q: Aggregate, st: AggState, e: Event, clock: nat, keys: seq<string>)
    requires Runnable(q) && q.window.NoWindow? && Passes(lib, q, e)
    requires Isolated(st, GroupKeys(lib, q.groupBy, e.data)) && keys != GroupKeys(lib, q.groupBy, e.data)
    ensures
      var st' := Executed(lib, q, st, e, clock);
      OfGroup(st'.buckets, keys) == OfGroup(st.buckets, keys) && OfGroup(st'.emitted, keys) == OfGroup(st.emitted, keys)
  {
    var t, own := EffectiveTime(e, clock), GroupKeys(lib, q.groupBy, e.data);
    var i := Slot(st.buckets, own);
    UnwindowedExecuted(lib, q, st, e, clock);
    var before := if i >= 0 then st.buckets[i] else FreshBucket(own, 0, NO_END);
    var b := Updated(q, before, e.data, t);
    UpdatedKeeps(q, before, e.data, t);
    if i >= 0 {
      OfGroupUpdate(st.buckets, i, b, keys);
    }
    OneOfGroup(st.buckets, b, keys);
    OneOfGroup(st.emitted, b, keys);
  }

  lemma ArrivalStaysUnwindowed(lib: Library, q: Aggregate, st: AggState, e: Event, clock: nat)
    requires Runnable(q) && q.window.NoWindow? && Passes(lib, q, e) && AllUnwindowed(q, st.buckets)
    ensures AllUnwindowed(q, Executed(lib, q, st, e, clock).buckets)
  {
    var t, keys := EffectiveTime(e, clock), GroupKeys(lib, q.groupBy, e.data);
    var i := Slot(st.buckets, keys);
    UnwindowedExecuted(lib, q, st, e, clock);
    UpdatedKeeps(q, if i >= 0 then st.buckets[i] else FreshBucket(keys, 0, NO_END), e.data, t);
  }

  lemma {:induction false} NoTickWithoutWindow(buckets: seq<Bucket>, now: nat)
    ensures Kept(NoWindow, buckets, now) == buckets && Emits(NoWindow, buckets, now) == []
  {
    if buckets != [] {
      NoTickWithoutWindow(buckets[..|buckets| - 1], now);
    }
  }

  lemma FlushIsIdle(st: AggState, now: nat)
    ensures Flushed(NoWindow, st, now) == st
  {
    NoTickWithoutWindow(st.buckets, now);
  }

  /** Over every run, blanks included. */
  lemma {:induction false} RunStaysUnwindowed(lib: Library, q: Aggregate, steps: seq<AggStep>)
    requires Runnable(q) && q.window.NoWindow?
    ensures AllUnwindowed(q, Run(lib, q, steps).buckets)
  {
    if steps != [] {
      var prefix, s := steps[..|steps| - 1], steps[|steps| - 1];
      RunStaysUnwindowed(lib, q, prefix);
      match s
      case Flush(now) => FlushIsIdle(Run(lib, q, prefix), now);
      case Arrive(e, clock) => if Passes(lib, q, e) { ArrivalStaysUnwindowed(lib, q, Run(lib, q, prefix), e, clock); }
    }
  }

  // ----- events without data

  /** No accepted event without data comes after an accepted event with keys. */
  ghost predicate BlanksComeFirst(lib: Library, q: Aggregate, steps: seq<AggStep>) {
    forall i, j ::
      0 <= i < j < |steps|
      && IsAccepted(lib, q, steps[i]) && IsAccepted(lib, q, steps[j]) && HasKeys(lib, q, steps[i].event)
      ==> HasKeys(lib, q, steps[j].event)
  }

  ghost predicate AnyKeyed(lib: Library, q: Aggregate, steps: seq<AggStep>) {
    exists i :: 0 <= i < |steps| && IsAccepted(lib, q, steps[i]) && HasKeys(lib, q, steps[i].event)
  }

  lemma BlanksFirstStep(lib: Library, q: Aggregate, steps: seq<AggStep>)
    requires steps != []
    ensures
      var prefix, s := steps[..|steps| - 1], steps[|steps| - 1];
      && (BlanksComeFirst(lib, q, steps) <==>
            && BlanksComeFirst(lib, q, prefix)
            && (IsAccepted(lib, q, s) && AnyKeyed(lib, q, prefix) ==> HasKeys(lib, q, s.event)))
      && (AnyKeyed(lib, q, steps) <==> AnyKeyed(lib, q, prefix) || (IsAccepted(lib, q, s) && HasKeys(lib, q, s.event)))
  {
    hide IsAccepted, HasKeys;
    var prefix := steps[..|steps| - 1];
    assert forall i :: 0 <= i < |prefix| ==> prefix[i] == steps[i];
  }

  /** As long as blanks come first, they have a bucket of their own, and once there is an event with
      keys the newest bucket has keys. */
  ghost predicate BlanksApart(q: Aggregate, buckets: seq<Bucket>, anyKeyed: bool) {
    && (!anyKeyed ==> forall k :: 0 <= k < |buckets| ==> buckets[k].keys == [])
    && (anyKeyed ==> buckets != [] && |buckets[|buckets| - 1].keys| == |q.groupBy|)
  }

  lemma ArrivalKeepsBlanksApart(lib: Library, q: Aggregate, st: AggState, e: Event, clock: nat, anyKeyed: bool)
    requires Runnable(q) && q.window.NoWindow? && Passes(lib, q, e) && AllUnwindowed(q, st.buckets)
    requires BlanksApart(q, st.buckets, anyKeyed) && (HasKeys(lib, q, e) || !anyKeyed)
    ensures Isolated(st, GroupKeys(lib, q.groupBy, e.data))
    ensures BlanksApart(q, Executed(lib, q, st, e, clock).buckets, anyKeyed || HasKeys(lib, q, e))
  {
    hide Updated, Executed, GroupKeys, HasKeys, Passes;
    KeysOfEvent(lib, q, e);
    var t, own := EffectiveTime(e, clock), GroupKeys(lib, q.groupBy, e.data);
    var i := Slot(st.buckets, own);
    UnwindowedExecuted(lib, q, st, e, clock);
    UpdatedKeeps(q, if i >= 0 then st.buckets[i] else FreshBucket(own, 0, NO_END), e.data, t);
    if i >= 0 {
      assert WholeTime(q, st.buckets[i]) && SameGroup(st.buckets[i].keys, own);
    }
  }

  lemma NothingLive(lib: Library, q: Aggregate)
    requires Runnable(q)
    ensures BlanksApart(q, Run(lib, q, []).buckets, AnyKeyed(lib, q, []))
  {
  }

  lemma {:induction false} RunKeepsBlanksApart(lib: Library, q: Aggregate, steps: seq<AggStep>)
    requires Runnable(q) && q.window.NoWindow? && BlanksComeFirst(lib, q, steps)
    ensures BlanksApart(q, Run(lib, q, steps).buckets, AnyKeyed(lib, q, steps))
  {
    hide BlanksComeFirst, AnyKeyed, Executed, BlanksApart, AllUnwindowed, Isolated, HasKeys, Passes;
    if steps == [] {
      NothingLive(lib, q);
    } else {
      var prefix, s := steps[..|steps| - 1], steps[|steps| - 1];
      BlanksFirstStep(lib, q, steps);
      RunKeepsBlanksApart(lib, q, prefix);
      RunStaysUnwindowed(lib, q, prefix);
      match s
      case Flush(now) => FlushIsIdle(Run(lib, q, prefix), now);
      case Arrive(e, clock) =>
        if Passes(lib, q, e) {
          ArrivalKeepsBlanksApart(lib, q, Run(lib, q, prefix), e, clock, AnyKeyed(lib, q, prefix));
        } else {
          RejectedIsIdle(lib, q, Run(lib, q, prefix), e, clock);
        }
    }
  }

  // ----- the map

  lemma NothingMapped(lib: Library, q: Aggregate, keys: seq<string>)
    requires Runnable(q)
    ensures MapState(q, Run(lib, q, []), keys, GroupEvents(lib, q, [], keys))
  {
  }

  lemma {:induction false} GroupIsMapped(lib: Library, q: Aggregate, steps: seq<AggStep>, keys: seq<string>)
    requires Runnable(q) && q.window.NoWindow? && BlanksComeFirst(lib, q, steps)
    ensures MapState(q, Run(lib, q, steps), keys, GroupEvents(lib, q, steps, keys))
  {
    hide BlanksComeFirst, AnyKeyed, MapState, Executed, BlanksApart, AllUnwindowed, Isolated, HasKeys;
    if steps == [] {
      NothingMapped(lib, q, keys);
    } else {
      var prefix, s := steps[..|steps| - 1], steps[|steps| - 1];
      BlanksFirstStep(lib, q, steps);
      GroupIsMapped(lib, q, prefix, keys);
      RunStaysUnwindowed(lib, q, prefix);
      RunKeepsBlanksApart(lib, q, prefix);
      var st := Run(lib, q, prefix);
      match s
      case Flush(now) => FlushIsIdle(st, now);
      case Arrive(e, clock) =>
        if Passes(lib, q, e) {
          ArrivalKeepsBlanksApart(lib, q, st, e, clock, AnyKeyed(lib, q, prefix));
          ArrivalKeepsMap(lib, q, st, e, clock, keys, GroupEvents(lib, q, prefix, keys));
        } else {
          RejectedIsIdle(lib, q, st, e, clock);
        }
    }
  }

  lemma ArrivalKeepsMap(lib: Library, q: Aggregate, st: AggState, e: Event, clock: nat, keys: seq<string>,
      evs: seq<Stamped>)
    requires Runnable(q) && q.window.NoWindow? && AllUnwindowed(q, st.buckets) && MapState(q, st, keys, evs)
    requires Passes(lib, q, e) && Isolated(st, GroupKeys(lib, q.groupBy, e.data))
    ensures
      var own := GroupKeys(lib, q.groupBy, e.data) == keys;
      MapState(q, Executed(lib, q, st, e, clock), keys, if own then evs + [(e, EffectiveTime(e, clock))] else evs)
  {
    if GroupKeys(lib, q.groupBy, e.data) == keys {
      ArrivalExtendsItsGroup(lib, q, st, e, clock, evs);
    } else {
      ArrivalKeepsOtherGroups(lib, q, st, e, clock, keys);
    }
  }

  // ----- a blank that comes later is counted into another group, for good

  /** The events counted into a group's live buckets. */
  function EventsIn(st: AggState, keys: seq<string>): nat {
    Total(OfGroup(st.buckets, keys))
  }

  lemma ArrivalCountsOnce(lib: Library, q: Aggregate, st: AggState, e: Event, clock: nat, keys: seq<string>)
    requires Runnable(q) && q.window.NoWindow? && Passes(lib, q, e)
    ensures
      var own := GroupKeys(lib, q.groupBy, e.data);
      var into := if Slot(st.buckets, own) >= 0 then st.buckets[Slot(st.buckets, own)].keys else own;
      EventsIn(Executed(lib, q, st, e, clock), keys) == EventsIn(st, keys) + if into == keys then 1 else 0
  {
    hide Total, OfGroup;
    var t, own := EffectiveTime(e, clock), GroupKeys(lib, q.groupBy, e.data);
    var i := Slot(st.buckets, own);
    var before := if i >= 0 then st.buckets[i] else FreshBucket(own, 0, NO_END);
    UnwindowedExecuted(lib, q, st, e, clock);
    UpdatedKeeps(q, before, e.data, t);
    if i >= 0 {
      ReplacedCounts(st.buckets, i, Updated(q, before, e.data, t), keys);
    } else {
      AppendedCounts(st.buckets, Updated(q, before, e.data, t), keys);
    }
  }

  /** A group never loses events, and each of its own adds one. */
  lemma StepKeepsEvents(lib: Library, q: Aggregate, steps: seq<AggStep>, keys: seq<string>)
    requires Runnable(q) && q.window.NoWindow? && steps != [] && |keys| == |q.groupBy|
    ensures
      var n := |steps| - 1;
      EventsIn(Run(lib, q, steps), keys) >= EventsIn(Run(lib, q, steps[..n]), keys) + if Joins(lib, q, steps[n], keys)
          then 1 else 0
  {
    hide EventsIn;
    var prefix, s := steps[..|steps| - 1], steps[|steps| - 1];
    var st := Run(lib, q, prefix);
    match s
    case Flush(now) => FlushIsIdle(st, now);
    case Arrive(e, clock) =>
      if Passes(lib, q, e) {
        var own := GroupKeys(lib, q.groupBy, e.data);
        RunStaysUnwindowed(lib, q, prefix);
        ArrivalCountsOnce(lib, q, st, e, clock, keys);
        if own == keys && Slot(st.buckets, own) >= 0 {
          assert WholeTime(q, st.buckets[Slot(st.buckets, own)])
              && SameGroup(st.buckets[Slot(st.buckets, own)].keys, own);
        }
      }
  }

  lemma {:induction false} AtLeastItsOwn(lib: Library, q: Aggregate, steps: seq<AggStep>, keys: seq<string>)
    requires Runnable(q) && q.window.NoWindow? && |keys| == |q.groupBy|
    ensures EventsIn(Run(lib, q, steps), keys) >= |GroupEvents(lib, q, steps, keys)|
  {
    if steps != [] {
      hide EventsIn, Joins, Run;
      AtLeastItsOwn(lib, q, steps[..|steps| - 1], keys);
      StepKeepsEvents(lib, q, steps, keys);
    }
  }

  lemma {:induction false} LateBlanksOvercount(lib: Library, q: Aggregate, steps: seq<AggStep>)
    returns (keys: seq<string>)
    requires Runnable(q) && q.window.NoWindow? && !BlanksComeFirst(lib, q, steps)
    ensures |keys| == |q.groupBy| && EventsIn(Run(lib, q, steps), keys) > |GroupEvents(lib, q, steps, keys)|
  {
    hide EventsIn, BlanksComeFirst, AnyKeyed;
    if steps == [] {
      NoBlanksYet(lib, q);
    }
    var prefix, s := steps[..|steps| - 1], steps[|steps| - 1];
    BlanksFirstStep(lib, q, steps);
    if !BlanksComeFirst(lib, q, prefix) {
      keys := LateBlanksOvercount(lib, q, prefix);
      StepKeepsEvents(lib, q, steps, keys);
    } else {
      var st := Run(lib, q, prefix);
      RunStaysUnwindowed(lib, q, prefix);
      RunKeepsBlanksApart(lib, q, prefix);
      assert IsUnwindowed([])(st.buckets[|st.buckets| - 1]);
      keys := st.buckets[|st.buckets| - 1].keys;
      AtLeastItsOwn(lib, q, prefix, keys);
      ArrivalCountsOnce(lib, q, st, s.event, s.clock, keys);
    }
  }

  lemma NoBlanksYet(lib: Library, q: Aggregate)
    ensures BlanksComeFirst(lib, q, [])
  {
  }

  lemma MapHoldsTheEvents(q: Aggregate, st: AggState, keys: seq<string>, evs: seq<Stamped>)
    requires MapState(q, st, keys, evs)
    ensures EventsIn(st, keys) == |evs|
  {
    FoldedKeeps(q, FreshBucket(keys, 0, NO_END), evs);
    OfGroupOne(GroupBucket(q, keys, evs), keys);
  }

  /** Unwindowed aggregation refines a map from group keys to batch results: a group has exactly one
      bucket once an event of it was accepted, that bucket is the batch result over all of the group's
      accepted events, and each of those events emitted the batch result over the events up to it. That
      holds of all groups if and only if no accepted event without data comes after one with keys: an
      event without data is counted into whatever bucket is the newest. */
  lemma UnwindowedIsAMapIff(lib: Library, q: Aggregate, steps: seq<AggStep>)
    requires Runnable(q) && q.window.NoWindow?
    ensures (forall keys: seq<string> :: MapState(q, Run(lib, q, steps), keys, GroupEvents(lib, q, steps, keys)))
       <==> BlanksComeFirst(lib, q, steps)
  {
    hide MapState, EventsIn, BlanksComeFirst, Run;
    if BlanksComeFirst(lib, q, steps) {
      forall keys: seq<string> ensures MapState(q, Run(lib, q, steps), keys, GroupEvents(lib, q, steps, keys)) {
        GroupIsMapped(lib, q, steps, keys);
      }
    } else {
      var keys := LateBlanksOvercount(lib, q, steps);
      if MapState(q, Run(lib, q, steps), keys, GroupEvents(lib, q, steps, keys)) {
        MapHoldsTheEvents(q, Run(lib, q, steps), keys, GroupEvents(lib, q, steps, keys));
      }
    }
  }

  /** A run in which it is: the event without data is counted into the result of group `a`. */
  lemma EventWithoutDataJoinsAnyGroup(lib: Library)
    ensures var q := Aggregate([AggFunc(Count, None, 0.0)], ["g"], None, NoWindow);
            var a := Event(Log, 1, None, Some(JObject(map["g" := JString("a")])));
            var blank := Event(Log, 2, None, None);
            var st := Executed(lib, q, Executed(lib, q, EMPTY_AGG, a, 0), blank, 0);
            && GroupKeys(lib, q.groupBy, a.data) == ["a"] && GroupKeys(lib, q.groupBy, blank.data) == []
            && |st.buckets| == 1 && st.buckets[0].keys == ["a"] && st.buckets[0].count == 2
  {
    var q := Aggregate([AggFunc(Count, None, 0.0)], ["g"], None, NoWindow);
    var a := Event(Log, 1, None, Some(JObject(map["g" := JString("a")])));
    var blank := Event(Log, 2, None, None);
    assert GroupKeys(lib, q.groupBy, a.data) == ["a"];
    UnwindowedExecuted(lib, q, EMPTY_AGG, a, 0);
    UpdatedKeeps(q, FreshBucket(["a"], 0, NO_END), a.data, 1);
    var st := Executed(lib, q, EMPTY_AGG, a, 0);
    UnwindowedExecuted(lib, q, st, blank, 0);
    assert Unwindowed(st.buckets[0], []);
    UpdatedKeeps(q, st.buckets[0], blank.data, 2);
  }
}
