/** The state of an aggregation query as a value: its buckets, oldest first, and the buckets whose
    results were emitted. Which buckets an event goes to, and what a timer tick flushes. */
module AggregateSpec {
  import opened Values
  import opened FilterEngine
  import opened Arithmetic
  import opened Aggregation

  const MAX_SLIDING_WINDOWS: nat := 1000

  datatype AggState = AggState(buckets: seq<Bucket>, emitted: seq<Bucket>)

  const EMPTY_AGG := AggState([], [])

  /** Queries the C code can run: no division by a zero window, no negative percentile. */
  predicate Runnable(q: Aggregate) {
    && (q.window.Tumbling? || q.window.Sliding? ==> q.window.sizeMs > 0)
    && forall i :: 0 <= i < |q.funcs| ==> q.funcs[i].percentile >= 0.0
  }

  function SizeNs(w: Window): nat
    requires w.Tumbling? || w.Sliding?
  {
    w.sizeMs * NS_PER_MS
  }

  function SlideNs(w: Window): nat
    requires w.Sliding?
  {
    if w.slideMs > 0 then w.slideMs * NS_PER_MS else w.sizeMs * NS_PER_MS
  }

  function TimeoutNs(w: Window): nat
    requires w.Session?
  {
    w.timeoutMs * NS_PER_MS
  }

  // ----- placing an event

  /** The newest bucket that satisfies `p`, or -1. */
  function FindNewest(buckets: seq<Bucket>, p: Bucket -> bool): (i: int)
    ensures -1 <= i < |buckets|
    ensures i >= 0 ==> p(buckets[i])
    ensures forall j :: i < j < |buckets| ==> !p(buckets[j])
  {
    if buckets == [] then -1
    else if p(buckets[|buckets| - 1]) then |buckets| - 1
    else FindNewest(buckets[..|buckets| - 1], p)
  }

  /** Buckets after placement, and the positions of those the event goes to. */
  datatype Placement = Placement(buckets: seq<Bucket>, chosen: seq<nat>)

  function PlaceOne(buckets: seq<Bucket>, p: Bucket -> bool, created: Bucket): (pl: Placement)
    ensures |pl.chosen| == 1 && pl.chosen[0] < |pl.buckets|
  {
    var i := FindNewest(buckets, p);
    if i >= 0 then Placement(buckets, [i]) else Placement(buckets + [created], [|buckets|])
  }

  predicate Unwindowed(b: Bucket, keys: seq<string>) {
    SameGroup(b.keys, keys) && b.start == 0 && b.end == NO_END
  }

  /** A session accepts an event no earlier than its last one and less than the timeout after it. */
  predicate OpenSession(b: Bucket, keys: seq<string>, t: nat, timeout: nat) {
    SameGroup(b.keys, keys) && b.end == NO_END && t >= b.last && t - b.last < timeout
  }

  predicate AtStart(b: Bucket, keys: seq<string>, start: nat) {
    SameGroup(b.keys, keys) && b.start == start
  }

  // The same conditions as search predicates.

  function IsUnwindowed(keys: seq<string>): Bucket -> bool {
    b => Unwindowed(b, keys)
  }

  function IsOpenSession(keys: seq<string>, t: nat, timeout: nat): Bucket -> bool {
    b => OpenSession(b, keys, t, timeout)
  }

  function IsAtStart(keys: seq<string>, start: nat): Bucket -> bool {
    b => AtStart(b, keys, start)
  }

  function TumblingStart(t: nat, size: nat): nat
    requires size > 0
  {
    Floored(t, size)
  }

  /** Where the walk over sliding windows begins. */
  function EarliestStart(t: nat, size: nat, slide: nat): nat
    requires slide > 0
  {
    Floored(if t >= size then t - size else 0, slide)
  }

  function MaxWindows(t: nat, size: nat, slide: nat): nat
    requires slide > 0
  {
    var n := (Floored(t, slide) - EarliestStart(t, size, slide)) / slide + 1;
    if n > MAX_SLIDING_WINDOWS then MAX_SLIDING_WINDOWS else if n < 0 then 0 else n
  }

  /** The starts the loop visits from `current` on, at most `room` of them. */
  function Walk(current: nat, t: nat, size: nat, slide: nat, room: nat): seq<nat>
    decreases room
  {
    if current <= t && current + size > t && room > 0
    then [current] + Walk(current + slide, t, size, slide, room - 1)
    else []
  }

  function SlidingStarts(t: nat, size: nat, slide: nat): seq<nat>
    requires slide > 0
  {
    Walk(EarliestStart(t, size, slide), t, size, slide, MaxWindows(t, size, slide))
  }

  function PlaceAll(pl: Placement, keys: seq<string>, starts: seq<nat>, size: nat): Placement {
    if starts == [] then pl
    else
      var before := PlaceAll(pl, keys, starts[..|starts| - 1], size);
      var start := starts[|starts| - 1];
      var next := PlaceOne(before.buckets, IsAtStart(keys, start), FreshBucket(keys, start, start + size));
      Placement(next.buckets, before.chosen + next.chosen)
  }

  function Placed(w: Window, buckets: seq<Bucket>, keys: seq<string>, t: nat): Placement
    requires (w.Tumbling? || w.Sliding?) ==> w.sizeMs > 0
  {
    match w
    case NoWindow => PlaceOne(buckets, IsUnwindowed(keys), FreshBucket(keys, 0, NO_END))
    case Session(_) =>
      PlaceOne(buckets, IsOpenSession(keys, t, TimeoutNs(w)), FreshBucket(keys, t, NO_END))
    case Tumbling(_) =>
      var start := TumblingStart(t, SizeNs(w));
      PlaceOne(buckets, IsAtStart(keys, start), FreshBucket(keys, start, start + SizeNs(w)))
    case Sliding(_, _) =>
      PlaceAll(Placement(buckets, []), keys, SlidingStarts(t, SizeNs(w), SlideNs(w)), SizeNs(w))
  }

  lemma {:induction false} PlaceAllInRange(pl: Placement, keys: seq<string>, starts: seq<nat>, size: nat)
    requires forall i :: 0 <= i < |pl.chosen| ==> pl.chosen[i] < |pl.buckets|
    ensures var r := PlaceAll(pl, keys, starts, size);
            |r.buckets| >= |pl.buckets| && forall i :: 0 <= i < |r.chosen| ==> r.chosen[i] < |r.buckets|
  {
    if starts != [] {
      PlaceAllInRange(pl, keys, starts[..|starts| - 1], size);
    }
  }

  function UpdateEach(q: Aggregate, buckets: seq<Bucket>, chosen: seq<nat>, data: Option<Json>,
      t: nat): (r: seq<Bucket>)
    requires forall i :: 0 <= i < |chosen| ==> chosen[i] < |buckets|
    ensures |r| == |buckets|
  {
    if chosen == [] then buckets
    else
      var before := UpdateEach(q, buckets, chosen[..|chosen| - 1], data, t);
      var i := chosen[|chosen| - 1];
      before[i := Updated(q, before[i], data, t)]
  }

  // ----- executing an event

  predicate Passes(lib: Library, q: Aggregate, e: Event) {
    q.filter == None || Matches(lib.regex, q.filter.value, e)
  }

  /** An event without a timestamp is dated by the clock. */
  function EffectiveTime(e: Event, clock: nat): nat {
    if e.timestamp != 0 then e.timestamp else clock
  }

  function Executed(lib: Library, q: Aggregate, st: AggState, e: Event, clock: nat): AggState
    requires Runnable(q)
  {
    if !Passes(lib, q, e) then st
    else
      var t := EffectiveTime(e, clock);
      var pl := Placed(q.window, st.buckets, GroupKeys(lib, q.groupBy, e.data), t);
      PlaceAllInRangeFor(q.window, st.buckets, GroupKeys(lib, q.groupBy, e.data), t);
      var updated := UpdateEach(q, pl.buckets, pl.chosen, e.data, t);
      AggState(updated, st.emitted + if q.window.NoWindow? then [updated[pl.chosen[0]]] else [])
  }

  lemma PlaceAllInRangeFor(w: Window, buckets: seq<Bucket>, keys: seq<string>, t: nat)
    requires (w.Tumbling? || w.Sliding?) ==> w.sizeMs > 0
    ensures var pl := Placed(w, buckets, keys, t);
            && (forall i :: 0 <= i < |pl.chosen| ==> pl.chosen[i] < |pl.buckets|)
            && (!w.Sliding? ==> |pl.chosen| == 1)
  {
    if w.Sliding? {
      PlaceAllInRange(Placement(buckets, []), keys, SlidingStarts(t, SizeNs(w), SlideNs(w)), SizeNs(w));
    }
  }

  // ----- the timer

  /** In tumbling states every bucket spans one whole aligned window. */
  ghost predicate Aligned(w: Window, b: Bucket) {
    w.Tumbling? ==> w.sizeMs > 0 && b.start % SizeNs(w) == 0 && b.end == b.start + SizeNs(w)
  }

  ghost predicate AllAligned(w: Window, buckets: seq<Bucket>) {
    forall i :: 0 <= i < |buckets| ==> Aligned(w, buckets[i])
  }

  /** What the flush callback does to one bucket: the bucket that stays, if any, and the result it
      emits, if any. A tumbling bucket is reset and moved on before its result is built. */
  datatype Tick = Tick(keep: Option<Bucket>, emit: Option<Bucket>)

  function TumblingReset(b: Bucket, now: nat, size: nat): Bucket
    requires size > 0 && b.start <= now
  {
    var start := b.start + Floored(now - b.start, size);
    Bucket(b.keys, 0, 0.0, 0.0, None, None, [], 0, [], start, start + size, b.last)
  }

  function TickBucket(w: Window, b: Bucket, now: nat): Tick
    requires Aligned(w, b)
  {
    match w
    case NoWindow => Tick(Some(b), None)
    case Session(_) =>
      if b.count > 0 && SubU64(now, b.last) >= TimeoutNs(w) then Tick(None, Some(b)) else Tick(Some(b), None)
    case Tumbling(_) =>
      if b.end <= now then
        var moved := TumblingReset(b, now, SizeNs(w));
        Tick(Some(moved), if b.count > 0 then Some(moved) else None)
      else Tick(Some(b), None)
    case Sliding(_, _) =>
      if b.end <= now then Tick(None, if b.count > 0 then Some(b) else None) else Tick(Some(b), None)
  }

  function ToSeq(o: Option<Bucket>): seq<Bucket> {
    if o.Some? then [o.value] else []
  }

  /** The buckets that stay, oldest first. */
  function Kept(w: Window, buckets: seq<Bucket>, now: nat): seq<Bucket>
    requires AllAligned(w, buckets)
  {
    if buckets == [] then []
    else Kept(w, buckets[..|buckets| - 1], now) + ToSeq(TickBucket(w, buckets[|buckets| - 1], now).keep)
  }

  /** The results emitted: the callback walks from the newest bucket to the oldest. */
  function Emits(w: Window, buckets: seq<Bucket>, now: nat): seq<Bucket>
    requires AllAligned(w, buckets)
  {
    if buckets == [] then []
    else ToSeq(TickBucket(w, buckets[|buckets| - 1], now).emit) + Emits(w, buckets[..|buckets| - 1], now)
  }

  function Flushed(w: Window, st: AggState, now: nat): AggState
    requires AllAligned(w, st.buckets)
  {
    AggState(Kept(w, st.buckets, now), st.emitted + Emits(w, st.buckets, now))
  }

  // ----- runs

  datatype AggStep = Arrive(event: Event, clock: nat) | Flush(now: nat)
}
