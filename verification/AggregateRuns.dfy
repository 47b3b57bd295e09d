/** Runs of an aggregation query: arrivals and timer ticks in any order. */
module AggregateRuns {
  import opened Values
  import opened Arithmetic
  import opened Aggregation
  import opened AggregateSpec
  import opened SlidingWindows

  ghost function Next(lib: Library, q: Aggregate, st: AggState, s: AggStep): AggState
    requires Runnable(q) && AllAligned(q.window, st.buckets)
  {
    match s
    case Arrive(e, clock) => Executed(lib, q, st, e, clock)
    case Flush(now) => Flushed(q.window, st, now)
  }

  ghost function Run(lib: Library, q: Aggregate, steps: seq<AggStep>): (st: AggState)
    requires Runnable(q)
    ensures AllAligned(q.window, st.buckets)
  {
    if steps == [] then EMPTY_AGG
    else
      var before := Run(lib, q, steps[..|steps| - 1]);
      NextKeepsAligned(lib, q, before, steps[|steps| - 1]);
      Next(lib, q, before, steps[|steps| - 1])
  }

  // ----- alignment of tumbling buckets

  lemma UpdatedKeeps(q: Aggregate, b: Bucket, data: Option<Json>, t: nat)
    ensures var b' := Updated(q, b, data, t);
            && b'.keys == b.keys && b'.start == b.start && b'.end == b.end && b'.count == b.count + 1
            && b'.last == if q.window.Session? && t > b.last then t else b.last
  {
    ApplyFuncsKeeps(Counted(b, q.window, t), q.funcs, data);
  }

  lemma {:induction false} UpdateEachKeeps(q: Aggregate, buckets: seq<Bucket>, chosen: seq<nat>, data: Option<Json>,
      t: nat)
    requires forall i :: 0 <= i < |chosen| ==> chosen[i] < |buckets|
    ensures var r := UpdateEach(q, buckets, chosen, data, t);
            forall i :: 0 <= i < |r| ==>
              r[i].keys == buckets[i].keys && r[i].start == buckets[i].start && r[i].end == buckets[i].end
  {
    if chosen != [] {
      var init, i := chosen[..|chosen| - 1], chosen[|chosen| - 1];
      UpdateEachKeeps(q, buckets, init, data, t);
      UpdatedKeeps(q, UpdateEach(q, buckets, init, data, t)[i], data, t);
    }
  }

  lemma TumblingMoves(b: Bucket, now: nat, size: nat)
    requires size > 0 && b.start % size == 0 && b.start <= now
    ensures var b' := TumblingReset(b, now, size);
            b'.start % size == 0 && b'.end == b'.start + size && b'.start <= now < b'.end
  {
    FlooredIs(now - b.start, size);
    AddMultiple(b.start, (now - b.start) / size, size);
  }

  lemma {:induction false} KeptAligned(w: Window, buckets: seq<Bucket>, now: nat)
    requires AllAligned(w, buckets)
    ensures AllAligned(w, Kept(w, buckets, now))
  {
    if buckets != [] {
      var b := buckets[|buckets| - 1];
      KeptAligned(w, buckets[..|buckets| - 1], now);
      if w.Tumbling? && b.end <= now {
        TumblingMoves(b, now, SizeNs(w));
      }
    }
  }

  lemma NextKeepsAligned(lib: Library, q: Aggregate, st: AggState, s: AggStep)
    requires Runnable(q) && AllAligned(q.window, st.buckets)
    ensures AllAligned(q.window, Next(lib, q, st, s).buckets)
  {
    match s
    case Flush(now) => KeptAligned(q.window, st.buckets, now);
    case Arrive(e, clock) =>
      if q.window.Tumbling? && Passes(lib, q, e) {
        var t, keys := EffectiveTime(e, clock), GroupKeys(lib, q.groupBy, e.data);
        var pl := Placed(q.window, st.buckets, keys, t);
        FlooredIs(t, SizeNs(q.window));
        assert AllAligned(q.window, pl.buckets);
        UpdateEachKeeps(q, pl.buckets, pl.chosen, e.data, t);
      }
  }

  /** An event lands in the one tumbling bucket whose window contains it. */
  lemma EventLandsInItsWindow(q: Aggregate, buckets: seq<Bucket>, keys: seq<string>, t: nat)
    requires Runnable(q) && q.window.Tumbling? && AllAligned(q.window, buckets)
    ensures var pl := Placed(q.window, buckets, keys, t);
            && |pl.chosen| == 1 && pl.chosen[0] < |pl.buckets|
            && pl.buckets[pl.chosen[0]].start <= t < pl.buckets[pl.chosen[0]].end
            && SameGroup(pl.buckets[pl.chosen[0]].keys, keys)
  {
    FlooredIs(t, SizeNs(q.window));
  }

  /** What a tumbling flush at `now` leaves behind, bucket by bucket: nothing has ended by `now`, a
      bucket that had ended now spans `now` and is empty, and the others are untouched. */
  lemma {:induction false} TumblingFlush(w: Window, buckets: seq<Bucket>, now: nat)
    requires w.Tumbling? && AllAligned(w, buckets)
    ensures var kept := Kept(w, buckets, now);
            && |kept| == |buckets|
            && forall i :: 0 <= i < |buckets| ==>
                 var b, b' := buckets[i], kept[i];
                 && now < b'.end && b'.keys == b.keys
                 && (b.end <= now ==> b'.start <= now && b'.count == 0)
                 && (b.end > now ==> b' == b)
  {
    if buckets != [] {
      var b := buckets[|buckets| - 1];
      TumblingFlush(w, buckets[..|buckets| - 1], now);
      if b.end <= now {
        TumblingMoves(b, now, SizeNs(w));
      }
    }
  }

  // ----- conservation of counts

  function Total(buckets: seq<Bucket>): nat {
    if buckets == [] then 0 else Total(buckets[..|buckets| - 1]) + buckets[|buckets| - 1].count
  }

  lemma {:induction false} TotalAppend(a: seq<Bucket>, b: seq<Bucket>)
    ensures Total(a + b) == Total(a) + Total(b)
  {
    if b == [] {
      assert a + b == a;
    } else {
      assert (a + b)[..|a + b| - 1] == a + b[..|b| - 1];
      TotalAppend(a, b[..|b| - 1]);
    }
  }

  lemma TotalUpdate(buckets: seq<Bucket>, i: nat, b: Bucket)
    requires i < |buckets|
    ensures Total(buckets[i := b]) + buckets[i].count == Total(buckets) + b.count
  {
    assert buckets == buckets[..i] + [buckets[i]] + buckets[i + 1..];
    assert buckets[i := b] == buckets[..i] + [b] + buckets[i + 1..];
    TotalAppend(buckets[..i] + [buckets[i]], buckets[i + 1..]);
    TotalAppend(buckets[..i] + [b], buckets[i + 1..]);
    TotalAppend(buckets[..i], [buckets[i]]);
    TotalAppend(buckets[..i], [b]);
    assert Total([buckets[i]]) == buckets[i].count && Total([b]) == b.count;
  }

  function CountOf(o: Option<Bucket>): nat {
    if o.Some? then o.value.count else 0
  }

  lemma TickCounts(w: Window, b: Bucket, now: nat)
    requires Aligned(w, b)
    ensures var tick := TickBucket(w, b, now);
            && Total(ToSeq(tick.emit)) == CountOf(tick.emit) && Total(ToSeq(tick.keep)) == CountOf(tick.keep)
            && if w.Tumbling?
               then CountOf(tick.emit) == 0 && CountOf(tick.keep) == (if b.end <= now then 0 else b.count)
               else CountOf(tick.emit) + CountOf(tick.keep) == b.count
  {
  }

  /** A session or sliding flush moves whole buckets from the live list to the results. */
  lemma {:induction false} FlushMovesCounts(w: Window, buckets: seq<Bucket>, now: nat)
    requires !w.Tumbling? && AllAligned(w, buckets)
    ensures Total(Emits(w, buckets, now)) + Total(Kept(w, buckets, now)) == Total(buckets)
  {
    if buckets != [] {
      var init, tick := buckets[..|buckets| - 1], TickBucket(w, buckets[|buckets| - 1], now);
      FlushMovesCounts(w, init, now);
      TickCounts(w, buckets[|buckets| - 1], now);
      TotalAppend(ToSeq(tick.emit), Emits(w, init, now));
      TotalAppend(Kept(w, init, now), ToSeq(tick.keep));
    }
  }

  /** No bucket that has ended by `now` holds an event. */
  ghost predicate NothingDue(buckets: seq<Bucket>, now: nat) {
    forall i :: 0 <= i < |buckets| && buckets[i].end <= now ==> buckets[i].count == 0
  }

  lemma NothingDueSplit(buckets: seq<Bucket>, now: nat)
    requires buckets != []
    ensures var n := |buckets| - 1;
            NothingDue(buckets, now) <==>
              && NothingDue(buckets[..n], now)
              && (buckets[n].end <= now ==> buckets[n].count == 0)
  {
    var init := buckets[..|buckets| - 1];
    assert forall i :: 0 <= i < |init| ==> init[i] == buckets[i];
  }

  /** A tumbling flush conserves counts exactly when no bucket with events in it has ended: the reset
      precedes the report, so every result it emits has count zero. */
  lemma {:induction false} TumblingFlushLosesCounts(w: Window, buckets: seq<Bucket>, now: nat)
    requires w.Tumbling? && AllAligned(w, buckets)
    ensures Total(Emits(w, buckets, now)) == 0
    ensures Total(Kept(w, buckets, now)) <= Total(buckets)
    ensures Total(Kept(w, buckets, now)) == Total(buckets) <==> NothingDue(buckets, now)
  {
    if buckets != [] {
      var init, tick := buckets[..|buckets| - 1], TickBucket(w, buckets[|buckets| - 1], now);
      TumblingFlushLosesCounts(w, init, now);
      TickCounts(w, buckets[|buckets| - 1], now);
      NothingDueSplit(buckets, now);
      TotalAppend(ToSeq(tick.emit), Emits(w, init, now));
      TotalAppend(Kept(w, init, now), ToSeq(tick.keep));
    }
  }

  lemma FirstTumblingEvent(lib: Library, q: Aggregate, e: Event, clock: nat) returns (b: Bucket)
    requires Runnable(q) && q.window.Tumbling? && Passes(lib, q, e)
    ensures
      var start := TumblingStart(EffectiveTime(e, clock), SizeNs(q.window));
      Executed(lib, q, EMPTY_AGG, e, clock) == AggState([b], []) && b.count == 1 && b.end == start + SizeNs(q.window)
  {
    hide GroupKeys, Updated;
    var t, size, keys := EffectiveTime(e, clock), SizeNs(q.window), GroupKeys(lib, q.groupBy, e.data);
    var created := FreshBucket(keys, TumblingStart(t, size), TumblingStart(t, size) + size);
    b := Updated(q, created, e.data, t);
    UpdatedKeeps(q, created, e.data, t);
    assert Placed(q.window, [], keys, t) == Placement([created], [0]);
    var chosen: seq<nat> := [0];
    assert chosen[..0] == [] && UpdateEach(q, [created], chosen, e.data, t) == [b];
  }

  lemma FlushOfOne(w: Window, b: Bucket, now: nat)
    requires w.Tumbling? && AllAligned(w, [b]) && b.count > 0 && b.end <= now
    ensures
      var st := Flushed(w, AggState([b], []), now);
      |st.emitted| == 1 && Total(st.emitted) + Total(st.buckets) == 0
  {
    TumblingFlushLosesCounts(w, [b], now);
    assert [b][..0] == [] && Total([b]) == b.count;
    assert [] + Emits(w, [b], now) == Emits(w, [b], now);
    assert Emits(w, [b], now) == ToSeq(TickBucket(w, b, now).emit) + Emits(w, [], now);
  }

  lemma RunStep(lib: Library, q: Aggregate, steps: seq<AggStep>, s: AggStep)
    requires Runnable(q)
    ensures Run(lib, q, steps + [s]) == Next(lib, q, Run(lib, q, steps), s)
  {
    hide Next;
    assert (steps + [s])[..|steps|] == steps;
  }

  /** A run in which that happens: one accepted event, and a flush once its window has ended. The event
      is neither in a bucket nor in the result any more. */
  lemma EventIsLostAtTheWindowsEnd(lib: Library, q: Aggregate, e: Event, clock: nat, now: nat)
    requires Runnable(q) && q.window.Tumbling? && Passes(lib, q, e)
    requires now >= TumblingStart(EffectiveTime(e, clock), SizeNs(q.window)) + SizeNs(q.window)
    ensures
      var before, st := Run(lib, q, [Arrive(e, clock)]), Run(lib, q, [Arrive(e, clock), Flush(now)]);
      Total(before.buckets) == 1 && |st.emitted| == 1 && Total(st.emitted) + Total(st.buckets) == 0
  {
    hide Run, Executed, Flushed;
    var b := FirstTumblingEvent(lib, q, e, clock);
    RunStep(lib, q, [], Arrive(e, clock));
    RunStep(lib, q, [Arrive(e, clock)], Flush(now));
    assert [] + [Arrive(e, clock)] == [Arrive(e, clock)];
    assert [Arrive(e, clock)] + [Flush(now)] == [Arrive(e, clock), Flush(now)];
    EmptyRun(lib, q);
    FlushOfOne(q.window, b, now);
    assert [b][..0] == [] && Total([b]) == 1;
  }

  lemma RejectedIsIdle(lib: Library, q: Aggregate, st: AggState, e: Event, clock: nat)
    requires Runnable(q) && !Passes(lib, q, e)
    ensures Executed(lib, q, st, e, clock) == st
  {
  }

  lemma EmptyRun(lib: Library, q: Aggregate)
    requires Runnable(q)
    ensures Run(lib, q, []) == EMPTY_AGG
  {
  }

  /** A flush makes two buckets of a group share a window: exactly when they did before, or when both
      windows began by the clock, so that each bucket spans the clock now. */
  lemma WindowsMeetIff(w: Window, buckets: seq<Bucket>, now: nat, i: nat, j: nat)
    requires w.Tumbling? && AllAligned(w, buckets) && i < |buckets| && j < |buckets|
    ensures
      var kept := Kept(w, buckets, now);
      && |kept| == |buckets|
      && (kept[i].start == kept[j].start
          <==> buckets[i].start == buckets[j].start || (buckets[i].start <= now && buckets[j].start <= now))
  {
    TumblingFlush(w, buckets, now);
    KeptAligned(w, buckets, now);
    var kept := Kept(w, buckets, now);
    assert Aligned(w, kept[i]) && Aligned(w, kept[j]);
    if kept[i].start <= kept[j].start <= now {
      CloseMultiples(kept[i].start, kept[j].start, SizeNs(w));
    } else if kept[j].start <= kept[i].start <= now {
      CloseMultiples(kept[j].start, kept[i].start, SizeNs(w));
    }
  }

  /** The number of arrivals that passed the WHERE filter. */
  ghost function Passed(lib: Library, q: Aggregate, steps: seq<AggStep>): nat {
    if steps == [] then 0
    else
      var s := steps[|steps| - 1];
      Passed(lib, q, steps[..|steps| - 1]) + if s.Arrive? && Passes(lib, q, s.event) then 1 else 0
  }

  lemma ArrivalAddsOne(lib: Library, q: Aggregate, st: AggState, e: Event, clock: nat)
    requires Runnable(q) && q.window.Session? && Passes(lib, q, e)
    ensures var st' := Executed(lib, q, st, e, clock);
            Total(st'.buckets) == Total(st.buckets) + 1 && st'.emitted == st.emitted
  {
    var t, keys := EffectiveTime(e, clock), GroupKeys(lib, q.groupBy, e.data);
    var pl := Placed(q.window, st.buckets, keys, t);
    var i := pl.chosen[0];
    TotalAppend(st.buckets, [FreshBucket(keys, t, NO_END)]);
    assert Total([FreshBucket(keys, t, NO_END)]) == 0;
    assert pl.chosen == [i];
    assert UpdateEach(q, pl.buckets, [], e.data, t) == pl.buckets;
    assert Executed(lib, q, st, e, clock).buckets == pl.buckets[i := Updated(q, pl.buckets[i], e.data, t)];
    UpdatedKeeps(q, pl.buckets[i], e.data, t);
    TotalUpdate(pl.buckets, i, Updated(q, pl.buckets[i], e.data, t));
  }

  /** Session conservation, for arbitrary timestamps and clocks, in order or not, wrapping or not:
      the events in emitted sessions and in live ones are all the events that passed the filter. */
  lemma {:induction false} SessionsConserveEvents(lib: Library, q: Aggregate, steps: seq<AggStep>)
    requires Runnable(q) && q.window.Session?
    ensures var st := Run(lib, q, steps); Total(st.emitted) + Total(st.buckets) == Passed(lib, q, steps)
  {
    if steps != [] {
      var prefix, s := steps[..|steps| - 1], steps[|steps| - 1];
      SessionsConserveEvents(lib, q, prefix);
      var st := Run(lib, q, prefix);
      match s
      case Flush(now) =>
        FlushMovesCounts(q.window, st.buckets, now);
        TotalAppend(st.emitted, Emits(q.window, st.buckets, now));
      case Arrive(e, clock) => if Passes(lib, q, e) { ArrivalAddsOne(lib, q, st, e, clock); }
    }
  }

  /** A sliding query over events dated from the window size on holds no bucket and reports nothing,
      however many events pass its filter and whenever the timer fires. */
  lemma {:induction false} SlidingNeverReports(lib: Library, q: Aggregate, steps: seq<AggStep>)
    requires Runnable(q) && q.window.Sliding?
    requires forall i :: 0 <= i < |steps| && steps[i].Arrive?
               ==> EffectiveTime(steps[i].event, steps[i].clock) >= SizeNs(q.window)
    ensures Run(lib, q, steps) == EMPTY_AGG
  {
    if steps != [] {
      var prefix, s := steps[..|steps| - 1], steps[|steps| - 1];
      assert forall i :: 0 <= i < |prefix| ==> prefix[i] == steps[i];
      SlidingNeverReports(lib, q, prefix);
      if s.Arrive? {
        LateEventIsDropped(lib, q, s.event, s.clock);
      }
    }
  }

  lemma LateEventIsDropped(lib: Library, q: Aggregate, e: Event, clock: nat)
    requires Runnable(q) && q.window.Sliding? && EffectiveTime(e, clock) >= SizeNs(q.window)
    ensures Executed(lib, q, EMPTY_AGG, e, clock) == EMPTY_AGG
  {
    var t := EffectiveTime(e, clock);
    NothingFromSizeOn(t, SizeNs(q.window), SlideNs(q.window));
    assert Placed(q.window, [], GroupKeys(lib, q.groupBy, e.data), t) == Placement([], []);
  }

  // ----- batch contents of a bucket, and the events of a group

  /** An event and its effective time. */
  type Stamped = (Event, nat)

  /** A bucket after a list of events. */
  function Folded(q: Aggregate, b: Bucket, evs: seq<Stamped>): Bucket {
    if evs == [] then b
    else Updated(q, Folded(q, b, evs[..|evs| - 1]), evs[|evs| - 1].0.data, evs[|evs| - 1].1)
  }

  /** The group keys, start and end a bucket is created with. */
  type Place = (seq<string>, nat, nat)

  function Created(at: Place): Bucket {
    FreshBucket(at.0, at.1, at.2)
  }

  lemma {:induction false} FoldedKeeps(q: Aggregate, b: Bucket, evs: seq<Stamped>)
    ensures var b' := Folded(q, b, evs);
            b'.keys == b.keys && b'.start == b.start && b'.end == b.end && b'.count == b.count + |evs|
  {
    if evs != [] {
      var n := |evs| - 1;
      FoldedKeeps(q, b, evs[..n]);
      UpdatedKeeps(q, Folded(q, b, evs[..n]), evs[n].0.data, evs[n].1);
    }
  }

  lemma FoldedAppend(q: Aggregate, b: Bucket, evs: seq<Stamped>, x: Stamped)
    ensures Folded(q, b, evs + [x]) == Updated(q, Folded(q, b, evs), x.0.data, x.1)
  {
    assert (evs + [x])[..|evs|] == evs;
  }

  /** An event without data in a grouped query has no keys at all; every other event has one for each
      field of the grouping. */
  predicate HasKeys(lib: Library, q: Aggregate, e: Event) {
    |GroupKeys(lib, q.groupBy, e.data)| == |q.groupBy|
  }

  lemma KeysOfEvent(lib: Library, q: Aggregate, e: Event)
    ensures var own := GroupKeys(lib, q.groupBy, e.data);
            HasKeys(lib, q, e) <==> |own| == |q.groupBy|
    ensures !HasKeys(lib, q, e) ==> GroupKeys(lib, q.groupBy, e.data) == []
  {
  }

  predicate IsAccepted(lib: Library, q: Aggregate, s: AggStep) {
    s.Arrive? && Passes(lib, q, s.event)
  }

  /** The step is the arrival of an accepted event of the group. */
  predicate Joins(lib: Library, q: Aggregate, s: AggStep, keys: seq<string>) {
    IsAccepted(lib, q, s) && GroupKeys(lib, q.groupBy, s.event.data) == keys
  }

  function StepTime(s: AggStep): nat {
    match s
    case Arrive(e, clock) => EffectiveTime(e, clock)
    case Flush(now) => now
  }

  /** The accepted events of one group, in order of arrival. */
  ghost function GroupEvents(lib: Library, q: Aggregate, steps: seq<AggStep>, keys: seq<string>): seq<Stamped> {
    if steps == [] then []
    else
      var before := GroupEvents(lib, q, steps[..|steps| - 1], keys);
      var s := steps[|steps| - 1];
      if Joins(lib, q, s, keys) then before + [(s.event, StepTime(s))] else before
  }

  function OfGroup(buckets: seq<Bucket>, keys: seq<string>): seq<Bucket> {
    if buckets == [] then []
    else
      OfGroup(buckets[..|buckets| - 1], keys) +
      if buckets[|buckets| - 1].keys == keys then [buckets[|buckets| - 1]] else []
  }

  lemma {:induction false} OfGroupAppend(a: seq<Bucket>, b: seq<Bucket>, keys: seq<string>)
    ensures OfGroup(a + b, keys) == OfGroup(a, keys) + OfGroup(b, keys)
  {
    if b == [] {
      assert a + b == a;
    } else {
      assert (a + b)[..|a + b| - 1] == a + b[..|b| - 1];
      OfGroupAppend(a, b[..|b| - 1], keys);
    }
  }

  lemma {:induction false} OfGroupMember(buckets: seq<Bucket>, keys: seq<string>, b: Bucket)
    ensures b in OfGroup(buckets, keys) <==> b in buckets && b.keys == keys
  {
    if buckets != [] {
      var n := |buckets| - 1;
      OfGroupMember(buckets[..n], keys, b);
      assert buckets == buckets[..n] + [buckets[n]];
    }
  }

  lemma OfGroupSplit(buckets: seq<Bucket>, i: nat, keys: seq<string>)
    requires i < |buckets|
    ensures OfGroup(buckets, keys)
         == OfGroup(buckets[..i], keys) + (if buckets[i].keys == keys then [buckets[i]] else [])
             + OfGroup(buckets[i + 1..], keys)
  {
    var front, back := buckets[..i], buckets[i + 1..];
    assert buckets == front + [buckets[i]] + back && (front + [buckets[i]])[..i] == front;
    OfGroupAppend(front + [buckets[i]], back, keys);
  }

  lemma ExchangedOne(front: seq<Bucket>, a: Bucket, b: Bucket, back: seq<Bucket>)
    ensures multiset(front + [b] + back) + multiset{a} == multiset(front + [a] + back) + multiset{b}
    ensures front + [a] + back == [a] ==> front + [b] + back == [b]
  {
    if front + [a] + back == [a] {
      assert |front + [a] + back| == 1;
    }
  }

  /** Replacing a bucket by one of the same group changes that group's buckets in one place. */
  lemma OfGroupUpdate(buckets: seq<Bucket>, i: nat, b: Bucket, keys: seq<string>)
    requires i < |buckets| && b.keys == buckets[i].keys
    ensures if b.keys == keys
            then multiset(OfGroup(buckets[i := b], keys)) + multiset{buckets[i]}
                == multiset(OfGroup(buckets, keys)) + multiset{b}
            else OfGroup(buckets[i := b], keys) == OfGroup(buckets, keys)
    ensures OfGroup(buckets, keys) == [buckets[i]] && b.keys == keys ==> OfGroup(buckets[i := b], keys) == [b]
  {
    hide OfGroup;
    OfGroupSplit(buckets, i, keys);
    OfGroupSplit(buckets[i := b], i, keys);
    assert buckets[i := b][..i] == buckets[..i] && buckets[i := b][i + 1..] == buckets[i + 1..];
    ExchangedOne(OfGroup(buckets[..i], keys), buckets[i], b, OfGroup(buckets[i + 1..], keys));
  }
}
