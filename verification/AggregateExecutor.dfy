/** The aggregation executor as it runs: a linked list of buckets that are updated in place,
    prepended to by arrivals, and unlinked by the flush callback while it walks the list. */
module AggregateExecutor {
  import opened Values
  import opened Aggregation
  import opened FilterEngine
  import opened Arithmetic
  import opened AggregateSpec
  import AggregateRuns
  import opened BucketMetrics
  import Percentiles

  class BucketNode {
    const keys: seq<string>
    var count: nat
    var sum: real
    var sumSquares: real
    var min: Option<real>
    var max: Option<real>
    var distinct: seq<real>
    var distinctCount: nat
    var percentiles: seq<real>
    var start: nat
    var end: nat
    var last: nat
    var next: BucketNode?

    function Value(): Bucket
      reads this
    {
      Bucket(keys, count, sum, sumSquares, min, max, distinct, distinctCount, percentiles, start, end, last)
    }

    constructor (keys: seq<string>, start: nat, end: nat, next: BucketNode?)
      ensures Value() == FreshBucket(keys, start, end) && this.next == next
    {
      this.keys, this.start, this.end, this.last, this.next := keys, start, end, start, next;
      count, sum, sumSquares, min, max := 0, 0.0, 0.0, None, None;
      distinct, distinctCount, percentiles := [], 0, [];
    }

    /** update_bucket_with_event */
    method Update(q: Aggregate, data: Option<Json>, t: nat)
      modifies this
      ensures Value() == Updated(q, old(Value()), data, t) && next == old(next)
    {
      count := count + 1;
      if q.window.Session? && t > last {
        last := t;
      }
      ghost var counted := Value();
      var i := 0;
      while i < |q.funcs|
        invariant 0 <= i <= |q.funcs| && next == old(next)
        invariant Value() == ApplyFuncs(counted, q.funcs[..i], data)
      {
        assert q.funcs[..i + 1][..i] == q.funcs[..i];
        Apply(q.funcs[i], data);
        i := i + 1;
      }
      assert q.funcs[..i] == q.funcs;
    }

    method Apply(f: AggFunc, data: Option<Json>)
      modifies this
      ensures Value() == ApplyFunc(old(Value()), f, data) && next == old(next)
    {
      if f.kind == Count || f.field == None {
        return;
      }
      var value := NumericValue(data, f.field.value);
      match f.kind {
        case Sum | Avg =>
          sum := sum + value;
          sumSquares := sumSquares + value * value;
          Lower(value);
          Raise(value);
        case Min => Lower(value);
        case Max => Raise(value);
        case Percentile => percentiles := percentiles + [value];
        case Distinct =>
          var found := IsKnown(value);
          if !found {
            distinct := distinct + [value];
            distinctCount := distinctCount + 1;
          }
        case Count =>
      }
    }

    method Lower(value: real)
      modifies this`min
      ensures min == LowerBound(old(min), value)
    {
      if min == None || value < min.value {
        min := Some(value);
      }
    }

    method Raise(value: real)
      modifies this`max
      ensures max == UpperBound(old(max), value)
    {
      if max == None || value > max.value {
        max := Some(value);
      }
    }

    method IsKnown(value: real) returns (found: bool)
      ensures found == Known(distinct, value)
    {
      var j := 0;
      while j < |distinct|
        invariant 0 <= j <= |distinct|
        invariant forall i :: 0 <= i < j ==> !Close(distinct[i], value)
      {
        if Close(distinct[j], value) {
          return true;
        }
        j := j + 1;
      }
      return false;
    }

    /** The tumbling branch of the flush callback: empty the bucket and move its window to `now`. */
    method Reset(now: nat, size: nat)
      requires size > 0 && start <= now
      modifies this
      ensures Value() == TumblingReset(old(Value()), now, size) && next == old(next)
    {
      hide Floored;
      count, sum, sumSquares, min, max := 0, 0.0, 0.0, None, None;
      distinct, distinctCount, percentiles := [], 0, [];
      start := NextStart(now, size);
      end := start + size;
    }

    method NextStart(now: nat, size: nat) returns (next: nat)
      requires size > 0 && start <= now
      ensures next == start + Floored(now - start, size)
    {
      var windowsPassed := (now - start) / size;
      FlooredIs(now - start, size);
      next := start + windowsPassed * size;
    }

    /** create_agg_result_event: one metric per function. */
    method Result(lib: Library, q: Aggregate) returns (r: AggResult)
      requires Reportable(q.funcs)
      ensures r == ResultOf(lib, q, Value())
    {
      hide MetricOf, MetricName;
      var metrics: map<string, Metric> := map[];
      var i := 0;
      while i < |q.funcs|
        invariant 0 <= i <= |q.funcs|
        invariant metrics == Report(lib, q.funcs[..i], Value())
      {
        var m := ReportedMetric(q.funcs[i]);
        if m.Some? {
          metrics := metrics[MetricName(lib, q.funcs[i]) := m.value];
        }
        assert q.funcs[..i + 1][..i] == q.funcs[..i];
        i := i + 1;
      }
      assert q.funcs[..i] == q.funcs;
      r := AggResult(keys, metrics, if q.window.NoWindow? then None else Some((start, end)));
    }

    method ReportedMetric(f: AggFunc) returns (m: Option<Metric>)
      requires f.percentile >= 0.0
      ensures m == MetricOf(f, Value())
    {
      if f.kind == Count {
        return Some(IntMetric(count));
      } else if f.field == None {
        return None;
      }
      match f.kind {
        case Sum => m := Some(RealMetric(sum));
        case Avg => m := Some(RealMetric(if count > 0 then sum / count as real else 0.0));
        case Min => m := if min.Some? then Some(RealMetric(min.value)) else None;
        case Max => m := if max.Some? then Some(RealMetric(max.value)) else None;
        case Distinct => m := Some(IntMetric(distinctCount));
        case Percentile =>
          if percentiles == [] {
            return None;
          }
          var values := new real[|percentiles|](i requires 0 <= i < |percentiles| reads this => percentiles[i]);
          assert values[..] == percentiles;
          Percentiles.ExchangeSort(values);
          m := Some(RealMetric(values[Percentiles.Index(f.percentile, values.Length)]));
      }
    }
  }

  function ResultsOf(lib: Library, q: Aggregate, emitted: seq<Bucket>): (r: seq<AggResult>)
    requires Reportable(q.funcs)
    ensures |r| == |emitted|
  {
    seq(|emitted|, i requires 0 <= i < |emitted| => ResultOf(lib, q, emitted[i]))
  }

  class Executor {
    const lib: Library
    const q: Aggregate
    var buckets: BucketNode?
    var bucketCount: nat
    var results: seq<AggResult>  // what was emitted, in order
    ghost var nodes: seq<BucketNode>  // the list, oldest first: the head is the last of them
    ghost var values: seq<Bucket>  // their values
    ghost var emitted: seq<Bucket>  // the buckets the results were built from
    ghost var Repr: set<object>

    static ghost function Below(nodes: seq<BucketNode>, i: int): BucketNode?
      requires i <= |nodes|
    {
      if i > 0 then nodes[i - 1] else null
    }

    /** The links run from the newest node to the oldest. */
    ghost predicate Linked()
      reads this, Repr
    {
      && this in Repr
      && (forall i :: 0 <= i < |nodes| ==> nodes[i] in Repr)
      && (forall i, j :: 0 <= i < j < |nodes| ==> nodes[i] != nodes[j])
      && (forall i {:trigger nodes[i].next} :: 0 <= i < |nodes| ==> nodes[i].next == Below(nodes, i))
      && buckets == Below(nodes, |nodes|)
      && bucketCount == |nodes|
    }

    ghost predicate Valid()
      reads this, Repr
      ensures Valid() ==> this in Repr
    {
      && Linked()
      && |values| == |nodes|
      && (forall i {:trigger values[i]} {:trigger nodes[i].Value()} ::
          0 <= i < |nodes| ==> nodes[i].Value() == values[i])
      && Runnable(q) && AllAligned(q.window, values)
      && results == ResultsOf(lib, q, emitted)
    }

    ghost function State(): AggState
      reads this
    {
      AggState(values, emitted)
    }

    constructor (lib: Library, q: Aggregate)
      requires Runnable(q)
      ensures Valid() && fresh(Repr) && State() == EMPTY_AGG && this.lib == lib && this.q == q
    {
      this.lib, this.q := lib, q;
      buckets, bucketCount, results := null, 0, [];
      nodes, values, emitted, Repr := [], [], [], {this};
    }

    /** The search loops: from the head on, the first bucket that satisfies `p`. */
    method Find(p: Bucket -> bool) returns (node: BucketNode?, ghost at: int)
      requires Valid()
      ensures at == FindNewest(values, p)
      ensures node == if at >= 0 then nodes[at] else null
    {
      node := buckets;
      at := |nodes| - 1;
      while node != null
        invariant -1 <= at < |nodes| && node == Below(nodes, at + 1)
        invariant FindNewest(values, p) == FindNewest(values[..at + 1], p)
        decreases at
      {
        assert node == nodes[at] && node.Value() == values[at];
        if p(node.Value()) {
          return;
        }
        assert values[..at + 1][..at] == values[..at] && nodes[at].next == Below(nodes, at);
        node := node.next;
        at := at - 1;
      }
    }

    /** create_bucket_with_window: prepends a fresh bucket. */
    method Create(keys: seq<string>, start: nat, end: nat) returns (node: BucketNode)
      requires Valid() && Aligned(q.window, FreshBucket(keys, start, end))
      modifies this
      ensures Valid() && fresh(Repr - old(Repr))
      ensures nodes == old(nodes) + [node] && values == old(values) + [FreshBucket(keys, start, end)]
      ensures emitted == old(emitted)
    {
      node := new BucketNode(keys, start, end, buckets);
      nodes, values, Repr := nodes + [node], values + [FreshBucket(keys, start, end)], Repr + {node};
      buckets := node;
      bucketCount := bucketCount + 1;
    }

    // ----- events

    method PlaceIn(p: Bucket -> bool, keys: seq<string>, start: nat, end: nat) returns (node: BucketNode, ghost at: nat)
      requires Valid() && Aligned(q.window, FreshBucket(keys, start, end))
      modifies this
      ensures Valid() && fresh(Repr - old(Repr)) && emitted == old(emitted)
      ensures Placement(values, [at]) == PlaceOne(old(values), p, FreshBucket(keys, start, end))
      ensures at < |nodes| && node == nodes[at] && old(nodes) <= nodes
    {
      var found: BucketNode?;
      ghost var i: int;
      found, i := Find(p);
      if found == null {
        node := Create(keys, start, end);
        at := |nodes| - 1;
      } else {
        node := found;
        at := i;
      }
    }

    /** get_or_create_buckets_for_event */
    method GetOrCreate(keys: seq<string>, t: nat) returns (chosen: seq<BucketNode>, ghost at: seq<nat>)
      requires Valid()
      modifies this
      ensures Valid() && fresh(Repr - old(Repr)) && emitted == old(emitted)
      ensures Placement(values, at) == Placed(q.window, old(values), keys, t)
      ensures Points(nodes, chosen, at)
    {
      var node: BucketNode;
      ghost var i: nat;
      match q.window {
        case NoWindow =>
          node, i := PlaceIn(IsUnwindowed(keys), keys, 0, NO_END);
          chosen, at := [node], [i];
        case Session(_) =>
          var timeout := TimeoutNs(q.window);
          node, i := PlaceIn(IsOpenSession(keys, t, timeout), keys, t, NO_END);
          chosen, at := [node], [i];
        case Tumbling(_) =>
          var size := SizeNs(q.window);
          var start := t / size * size;
          FlooredIs(t, size);
          node, i := PlaceIn(IsAtStart(keys, start), keys, start, start + size);
          chosen, at := [node], [i];
        case Sliding(_, _) =>
          chosen, at := PlaceSliding(keys, t);
      }
    }

    /** The chosen nodes are those at the chosen positions. */
    static ghost predicate Points(nodes: seq<BucketNode>, chosen: seq<BucketNode>, at: seq<nat>) {
      |chosen| == |at| && forall i :: 0 <= i < |at| ==> at[i] < |nodes| && chosen[i] == nodes[at[i]]
    }

    /** The walk has placed the event in the first `count` of its windows and stands at `current`. */
    static ghost predicate WalkedTo(before: seq<Bucket>, pl: Placement, keys: seq<string>, starts: seq<nat>, count: nat,
                                    current: nat, t: nat, size: nat, slide: nat, maxWindows: nat) {
      && count <= maxWindows && count <= |starts|
      && starts[count..] == Walk(current, t, size, slide, maxWindows - count)
      && pl == PlaceAll(Placement(before, []), keys, starts[..count], size)
    }

    static lemma WalkedToNext(before: seq<Bucket>, pl: Placement, keys: seq<string>, starts: seq<nat>, count: nat,
                              current: nat, t: nat, size: nat, slide: nat, maxWindows: nat)
      requires WalkedTo(before, pl, keys, starts, count, current, t, size, slide, maxWindows)
      requires current <= t && current + size > t && count < maxWindows
      ensures var next := PlaceOne(pl.buckets, IsAtStart(keys, current), FreshBucket(keys, current, current + size));
              WalkedTo(before, Placement(next.buckets, pl.chosen + next.chosen), keys, starts, count + 1,
                       current + slide, t, size, slide, maxWindows)
    {
      assert starts[count] == starts[count..][0] == current;
      assert starts[count + 1..] == starts[count..][1..];
      assert starts[..count + 1][..count] == starts[..count];
    }

    method AddWindow(keys: seq<string>, start: nat, size: nat, chosen: seq<BucketNode>, ghost at: seq<nat>)
      returns (chosen': seq<BucketNode>, ghost at': seq<nat>)
      requires Valid() && q.window.Sliding? && Points(nodes, chosen, at)
      modifies this
      ensures Valid() && fresh(Repr - old(Repr)) && emitted == old(emitted)
      ensures var next := PlaceOne(old(values), IsAtStart(keys, start), FreshBucket(keys, start, start + size));
              values == next.buckets && at' == at + next.chosen
      ensures Points(nodes, chosen', at')
    {
      var node, i := PlaceIn(IsAtStart(keys, start), keys, start, start + size);
      chosen', at' := chosen + [node], at + [i];
    }

    method PlaceSliding(keys: seq<string>, t: nat) returns (chosen: seq<BucketNode>, ghost at: seq<nat>)
      requires Valid() && q.window.Sliding?
      modifies this
      ensures Valid() && fresh(Repr - old(Repr)) && emitted == old(emitted)
      ensures Placement(values, at)
           == PlaceAll(Placement(old(values), []), keys, SlidingStarts(t, SizeNs(q.window), SlideNs(q.window)),
               SizeNs(q.window))
      ensures Points(nodes, chosen, at)
    {
      var size, slide := SizeNs(q.window), SlideNs(q.window);
      ghost var starts := SlidingStarts(t, size, slide);
      chosen, at := WalkWindows(keys, t, size, slide, EarliestStart(t, size, slide), MaxWindows(t, size, slide),
          starts);
    }

    /** The loop over candidate windows, at most `maxWindows` of them. */
    method WalkWindows(keys: seq<string>, t: nat, size: nat, slide: nat, first: nat, maxWindows: nat,
        ghost starts: seq<nat>)
      returns (chosen: seq<BucketNode>, ghost at: seq<nat>)
      requires Valid() && q.window.Sliding? && starts == Walk(first, t, size, slide, maxWindows)
      modifies this
      ensures Valid() && fresh(Repr - old(Repr)) && emitted == old(emitted)
      ensures Placement(values, at) == PlaceAll(Placement(old(values), []), keys, starts, size)
      ensures Points(nodes, chosen, at)
    {
      var current: nat, count: nat := first, 0;
      chosen, at := [], [];
      while current <= t && current + size > t && count < maxWindows
        invariant Valid() && fresh(Repr - old(Repr)) && emitted == old(emitted)
        invariant WalkedTo(old(values), Placement(values, at), keys, starts, count, current, t, size, slide, maxWindows)
        invariant Points(nodes, chosen, at)
        decreases maxWindows - count
      {
        WalkedToNext(old(values), Placement(values, at), keys, starts, count, current, t, size, slide, maxWindows);
        chosen, at := AddWindow(keys, current, size, chosen, at);
        current, count := current + slide, count + 1;
      }
      assert starts[..count] == starts;
    }

    method UpdateNode(node: BucketNode, data: Option<Json>, t: nat, ghost at: nat)
      requires Valid() && at < |nodes| && node == nodes[at]
      modifies this, node
      ensures Valid() && Repr == old(Repr) && nodes == old(nodes) && emitted == old(emitted)
      ensures values == old(values)[at := Updated(q, old(values)[at], data, t)]
    {
      assert node.Value() == values[at];
      AggregateRuns.UpdatedKeeps(q, values[at], data, t);
      node.Update(q, data, t);
      values := values[at := node.Value()];
    }

    /** A result event is built from the bucket as it is now, and emitted. */
    method EmitResult(node: BucketNode, ghost at: nat)
      requires Valid() && at < |nodes| && node == nodes[at]
      modifies this
      ensures Valid() && Repr == old(Repr) && nodes == old(nodes) && values == old(values)
      ensures emitted == old(emitted) + [values[at]]
    {
      assert node.Value() == values[at];
      var r := node.Result(lib, q);
      results := results + [r];
      emitted := emitted + [values[at]];
    }

    /** execute_aggregate */
    method Execute(event: Event, clock: nat) returns (matched: bool)
      requires Valid()
      modifies Repr
      ensures Valid() && fresh(Repr - old(Repr))
      ensures State() == Executed(lib, q, old(State()), event, clock)
      ensures matched == Passes(lib, q, event)
    {
      if q.filter.Some? && !Matches(lib.regex, q.filter.value, event) {
        return false;
      }
      var keys := GroupKeys(lib, q.groupBy, event.data);
      var t := EffectiveTime(event, clock);
      var chosen, at := GetOrCreate(keys, t);
      PlaceAllInRangeFor(q.window, old(values), keys, t);
      UpdateChosen(chosen, event.data, t, at);
      if q.window.NoWindow? && |chosen| > 0 {
        EmitResult(chosen[0], at[0]);
      }
      return true;
    }

    method UpdateChosen(chosen: seq<BucketNode>, data: Option<Json>, t: nat, ghost at: seq<nat>)
      requires Valid() && Points(nodes, chosen, at)
      modifies Repr
      ensures Valid() && Repr == old(Repr) && nodes == old(nodes) && emitted == old(emitted)
      ensures values == UpdateEach(q, old(values), at, data, t)
    {
      var i := 0;
      while i < |chosen|
        invariant 0 <= i <= |chosen|
        invariant Valid() && Repr == old(Repr) && nodes == old(nodes) && emitted == old(emitted)
        invariant values == UpdateEach(q, old(values), at[..i], data, t)
      {
        assert at[..i + 1][..i] == at[..i];
        UpdateNode(chosen[i], data, t, at[i]);
        i := i + 1;
      }
      assert at[..i] == at;
    }

    // ----- the timer

    /** remove_bucket_from_list: a walk from the head to the node, then its link is rewritten. */
    method RemoveFromList(node: BucketNode, ghost at: nat)
      requires Valid() && at < |nodes| && node == nodes[at]
      modifies Repr
      ensures Valid() && Repr == old(Repr) && emitted == old(emitted)
      ensures nodes == old(nodes)[..at] + old(nodes)[at + 1..]
      ensures values == old(values)[..at] + old(values)[at + 1..]
    {
      var previous: BucketNode? := null;
      var current := buckets;
      ghost var i := |nodes| - 1;
      while current != node
        invariant at <= i < |nodes| && current == nodes[i]
        invariant previous == if i + 1 < |nodes| then nodes[i + 1] else null
        decreases i
      {
        assert nodes[i].next == Below(nodes, i);
        previous, current := current, current.next;
        i := i - 1;
      }
      assert i == at;
      Unlink(previous, node, at);
    }

    method Unlink(previous: BucketNode?, node: BucketNode, ghost at: nat)
      requires Valid() && at < |nodes| && node == nodes[at]
      requires previous == if at + 1 < |nodes| then nodes[at + 1] else null
      modifies this, previous
      ensures Valid() && Repr == old(Repr) && emitted == old(emitted)
      ensures nodes == old(nodes)[..at] + old(nodes)[at + 1..]
      ensures values == old(values)[..at] + old(values)[at + 1..]
    {
      BypassLink(previous, node, at);
      values := values[..at] + values[at + 1..];
      forall i | 0 <= i < |nodes| ensures nodes[i].Value() == values[i] {
        var j := if i < at then i else i + 1;
        assert nodes[i] == old(nodes)[j] && old(nodes[j].Value()) == old(values)[j];
      }
    }

    /** Rewrites the link that leads to `node`: `previous`'s, or the head when that is null. */
    method BypassLink(previous: BucketNode?, node: BucketNode, ghost at: nat)
      requires Linked() && at < |nodes| && node == nodes[at]
      requires previous == if at + 1 < |nodes| then nodes[at + 1] else null
      modifies this`buckets, this`bucketCount, this`nodes, previous
      ensures Linked() && nodes == old(nodes)[..at] + old(nodes)[at + 1..]
      ensures forall i {:trigger old(nodes)[i]} ::
          0 <= i < |old(nodes)| ==> old(nodes)[i].Value() == old(nodes[i].Value())
    {
      assert nodes[at].next == Below(nodes, at);
      if previous == null {
        buckets := node.next;
      } else {
        previous.next := node.next;
      }
      bucketCount := bucketCount - 1;
      nodes := nodes[..at] + nodes[at + 1..];
      forall i | 0 <= i < |nodes| ensures nodes[i].next == Below(nodes, i) {
        var j := if i < at then i else i + 1;
        assert nodes[i] == old(nodes)[j] && old(nodes[j].next) == Below(old(nodes), j);
      }
    }

    /** window_flush_cb, at clock `now`: the next node is read before this one may be removed. */
    method Flush(now: nat)
      requires Valid()
      modifies Repr
      ensures Valid() && Repr == old(Repr) && State() == Flushed(q.window, old(State()), now)
    {
      var node := buckets;
      ghost var left: nat := |nodes|;
      ghost var before := State();
      FlushedToBegin(q.window, before, now);
      while node != null
        invariant Valid() && Repr == old(Repr)
        invariant left <= |nodes| && node == Below(nodes, left)
        invariant FlushedTo(q.window, before, State(), left, now)
        decreases left
      {
        assert nodes[left - 1].next == Below(nodes, left - 1);
        var next := node.next;
        FlushNode(node, now, before, left);
        node := next;
        left := left - 1;
        assert left > 0 ==> nodes[left - 1] == nodes[..left][left - 1];
      }
      FlushedToEnd(q.window, before, State(), now);
    }

    method FlushNode(node: BucketNode, now: nat, ghost before: AggState, ghost left: nat)
      requires Valid() && FlushedTo(q.window, before, State(), left, now)
      requires 0 < left <= |nodes| && node == nodes[left - 1]
      modifies Repr
      ensures Valid() && Repr == old(Repr) && FlushedTo(q.window, before, State(), left - 1, now)
      ensures left - 1 <= |nodes| && nodes[..left - 1] == old(nodes)[..left - 1]
    {
      TickStep(q.window, before.buckets, left, now);
      ghost var tick := TickBucket(q.window, before.buckets[left - 1], now);
      FlushedToNext(q.window, before, State(), left, now, ToSeq(tick.keep), ToSeq(tick.emit));
      TickNode(node, now, left - 1);
    }

    /** All but the oldest `left` buckets were visited. */
    static ghost predicate FlushedTo(w: Window, before: AggState, st: AggState, left: nat, now: nat) {
      && left <= |before.buckets| && left <= |st.buckets| && AllAligned(w, before.buckets)
      && st.buckets[..left] == before.buckets[..left]
      && Kept(w, before.buckets, now) == Kept(w, before.buckets[..left], now) + st.buckets[left..]
      && before.emitted + Emits(w, before.buckets, now) == st.emitted + Emits(w, before.buckets[..left], now)
    }

    static lemma FlushedToBegin(w: Window, before: AggState, now: nat)
      requires AllAligned(w, before.buckets)
      ensures FlushedTo(w, before, before, |before.buckets|, now)
    {
      assert before.buckets[..|before.buckets|] == before.buckets;
    }

    static lemma FlushedToEnd(w: Window, before: AggState, st: AggState, now: nat)
      requires FlushedTo(w, before, st, 0, now)
      ensures st == Flushed(w, before, now)
    {
      assert st.buckets[0..] == st.buckets;
    }

    static lemma TickStep(w: Window, before: seq<Bucket>, left: nat, now: nat)
      requires AllAligned(w, before) && 0 < left <= |before|
      ensures var tick := TickBucket(w, before[left - 1], now);
              && Kept(w, before[..left], now) == Kept(w, before[..left - 1], now) + ToSeq(tick.keep)
              && Emits(w, before[..left], now) == ToSeq(tick.emit) + Emits(w, before[..left - 1], now)
    {
      assert before[..left][..left - 1] == before[..left - 1];
    }

    /** When bucket `left - 1` leaves `keep` and emits `emit`. */
    static lemma FlushedToNext(w: Window, before: AggState, st: AggState, left: nat, now: nat, keep: seq<Bucket>,
        emit: seq<Bucket>)
      requires FlushedTo(w, before, st, left, now) && left > 0
      requires Kept(w, before.buckets[..left], now) == Kept(w, before.buckets[..left - 1], now) + keep
      requires Emits(w, before.buckets[..left], now) == emit + Emits(w, before.buckets[..left - 1], now)
      ensures before.buckets[left - 1] == st.buckets[left - 1]
      ensures FlushedTo(w, before, AggState(st.buckets[..left - 1] + keep + st.buckets[left..], st.emitted + emit),
          left - 1, now)
    {
      Shift(st.buckets, before.buckets, left, keep);
      Reassociate(Kept(w, before.buckets[..left - 1], now), keep, st.buckets[left..]);
      Reassociate(st.emitted, emit, Emits(w, before.buckets[..left - 1], now));
    }

    static lemma Reassociate(a: seq<Bucket>, b: seq<Bucket>, c: seq<Bucket>)
      ensures a + b + c == a + (b + c)
    {
    }

    static lemma Shift(now: seq<Bucket>, before: seq<Bucket>, left: nat, keep: seq<Bucket>)
      requires 0 < left <= |now| && left <= |before| && now[..left] == before[..left]
      ensures now[left - 1] == before[left - 1]
      ensures var kept := now[..left - 1] + keep + now[left..];
              kept[..left - 1] == before[..left - 1] && kept[left - 1..] == keep + now[left..]
    {
      assert now[..left][left - 1] == before[..left][left - 1];
      assert now[..left][..left - 1] == before[..left][..left - 1];
    }

    /** The body of the flush loop for one bucket. */
    method TickNode(node: BucketNode, now: nat, ghost at: nat)
      requires Valid() && at < |nodes| && node == nodes[at]
      modifies Repr
      ensures Valid() && Repr == old(Repr)
      ensures at <= |nodes| && nodes[..at] == old(nodes)[..at]
      ensures var tick := TickBucket(q.window, old(values)[at], now);
              && emitted == old(emitted) + ToSeq(tick.emit)
              && values == old(values)[..at] + ToSeq(tick.keep) + old(values)[at + 1..]
    {
      var shouldFlush, shouldRemove := Decide(node, now, at);
      if shouldFlush {
        EmitResult(node, at);
      }
      if shouldRemove {
        RemoveFromList(node, at);
      }
    }

    method Decide(node: BucketNode, now: nat, ghost at: nat) returns (shouldFlush: bool, shouldRemove: bool)
      requires Valid() && at < |nodes| && node == nodes[at]
      modifies this, node
      ensures Valid() && Repr == old(Repr) && nodes == old(nodes) && emitted == old(emitted)
      ensures |values| == |old(values)| && values == old(values)[at := values[at]]
      ensures var tick := TickBucket(q.window, old(values)[at], now);
              && tick.emit == (if shouldFlush then Some(values[at]) else None)
              && tick.keep == (if shouldRemove then None else Some(values[at]))
    {
      assert node.Value() == values[at];
      shouldFlush, shouldRemove := false, false;
      if q.window.Session? {
        if node.count > 0 && SubU64(now, node.last) >= TimeoutNs(q.window) {
          shouldFlush, shouldRemove := true, true;
        }
      } else if q.window.Tumbling? {
        if node.end <= now {
          shouldFlush := node.count > 0;
          ResetNode(node, now, at);
        }
      } else if q.window.Sliding? {
        if node.end <= now {
          shouldFlush, shouldRemove := node.count > 0, true;
        }
      }
    }

    method ResetNode(node: BucketNode, now: nat, ghost at: nat)
      requires Valid() && at < |nodes| && node == nodes[at] && q.window.Tumbling? && values[at].end <= now
      modifies this, node
      ensures Valid() && Repr == old(Repr) && nodes == old(nodes) && emitted == old(emitted)
      ensures values == old(values)[at := TumblingReset(old(values)[at], now, SizeNs(q.window))]
    {
      assert node.Value() == values[at];
      AggregateRuns.TumblingMoves(values[at], now, SizeNs(q.window));
      node.Reset(now, SizeNs(q.window));
      values := values[at := node.Value()];
    }
  }
}
