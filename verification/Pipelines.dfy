/** Pipelines of filter and show stages around an aggregation: running the stages one after the
    other is the same as one aggregation with all the conditions in its WHERE clause. */
module Pipelines {
  import opened Values
  import opened FilterEngine
  import opened Aggregation
  import opened AggregateSpec
  import opened AggregateRuns
  import opened AggregateExecutor
  import opened NqlAst

  // ----- one stage, and stages in order

  predicate Stateless(s: Query) {
    s.FilterQuery? || s.ShowQuery?
  }

  /** A stateless stage only decides whether the event goes on. */
  predicate LetsThrough(lib: Library, s: Query, e: Event)
    requires Stateless(s)
  {
    match s
    case FilterQuery(f) => Matches(lib.regex, f, e)
    case ShowQuery(_, _, where) => where == None || Matches(lib.regex, where.value, e)
  }

  /** Stages this model can run: stateless ones, and aggregations that use the one state there is. */
  predicate Stages(q: Aggregate, stages: seq<Query>) {
    forall i :: 0 <= i < |stages| ==> Stateless(stages[i]) || stages[i] == AggregateQuery(q)
  }

  /** The value returned by the first stages and the state they leave: a stage that returns zero ends
      the pipeline. */
  function Staged(lib: Library, q: Aggregate, stages: seq<Query>, st: AggState, e: Event,
      clock: nat): (r: (bool, AggState))
    requires Runnable(q) && Stages(q, stages)
  {
    if stages == [] then (true, st)
    else
      var before := Staged(lib, q, stages[..|stages| - 1], st, e, clock);
      var s := stages[|stages| - 1];
      if !before.0 then before
      else if s == AggregateQuery(q) then (Passes(lib, q, e), Executed(lib, q, before.1, e, clock))
      else (LetsThrough(lib, s, e), before.1)
  }

  /** execute_query, for one stage */
  method ExecuteQuery(x: Executor, s: Query, event: Event, clock: nat) returns (result: bool)
    requires x.Valid() && (Stateless(s) || s == AggregateQuery(x.q))
    modifies x.Repr
    ensures x.Valid() && fresh(x.Repr - old(x.Repr))
    ensures if s == AggregateQuery(x.q)
            then result == Passes(x.lib, x.q, event) && x.State() == Executed(x.lib, x.q, old(x.State()), event, clock)
            else result == LetsThrough(x.lib, s, event) && x.State() == old(x.State())
  {
    match s {
      case FilterQuery(f) => result := Matches(x.lib.regex, f, event);
      case ShowQuery(_, _, where) => result := where == None || Matches(x.lib.regex, where.value, event);
      case AggregateQuery(_) => result := x.Execute(event, clock);
    }
  }

  /** execute_pipeline, on the state of its aggregation */
  method ExecutePipeline(x: Executor, stages: seq<Query>, event: Event, clock: nat) returns (result: bool)
    requires x.Valid() && Stages(x.q, stages)
    modifies x.Repr
    ensures x.Valid() && fresh(x.Repr - old(x.Repr))
    ensures (result, x.State()) == Staged(x.lib, x.q, stages, old(x.State()), event, clock)
  {
    var i := 0;
    while i < |stages|
      invariant 0 <= i <= |stages| && x.Valid() && fresh(x.Repr - old(x.Repr))
      invariant (true, x.State()) == Staged(x.lib, x.q, stages[..i], old(x.State()), event, clock)
    {
      assert stages[..i + 1][..i] == stages[..i];
      var ok := ExecuteQuery(x, stages[i], event, clock);
      if !ok {
        StoppedEarly(x.lib, x.q, stages, old(x.State()), event, clock, i + 1);
        return false;
      }
      i := i + 1;
    }
    assert stages[..i] == stages;
    return true;
  }

  lemma {:induction false} StoppedEarly(lib: Library, q: Aggregate, stages: seq<Query>, st: AggState, e: Event,
      clock: nat, n: nat)
    requires Runnable(q) && Stages(q, stages) && n <= |stages|
    requires !Staged(lib, q, stages[..n], st, e, clock).0
    ensures Staged(lib, q, stages, st, e, clock) == Staged(lib, q, stages[..n], st, e, clock)
  {
    if n == |stages| {
      assert stages[..n] == stages;
    } else {
      var init := stages[..|stages| - 1];
      assert init[..n] == stages[..n];
      StoppedEarly(lib, q, init, st, e, clock, n);
    }
  }

  // ----- fusion

  function Conjoin(a: Option<FilterNode>, b: Option<FilterNode>): Option<FilterNode> {
    if a == None then b else if b == None then a else Some(And(a.value, b.value))
  }

  function ConditionOf(s: Query): Option<FilterNode>
    requires Stateless(s)
  {
    match s
    case FilterQuery(f) => Some(f)
    case ShowQuery(_, _, where) => where
  }

  /** The conditions of all stages, then the aggregation's own. */
  function FusedFilter(stages: seq<Query>, own: Option<FilterNode>): Option<FilterNode>
    requires forall i :: 0 <= i < |stages| ==> Stateless(stages[i])
  {
    if stages == [] then own
    else FusedFilter(stages[..|stages| - 1], Conjoin(ConditionOf(stages[|stages| - 1]), own))
  }

  predicate Holds(lib: Library, f: Option<FilterNode>, e: Event) {
    f == None || Matches(lib.regex, f.value, e)
  }

  lemma {:induction false} FusedFilterHolds(lib: Library, stages: seq<Query>, own: Option<FilterNode>, e: Event)
    requires forall i :: 0 <= i < |stages| ==> Stateless(stages[i])
    ensures Holds(lib, FusedFilter(stages, own), e)
       <==> Holds(lib, own, e) && forall i :: 0 <= i < |stages| ==> LetsThrough(lib, stages[i], e)
  {
    if stages != [] {
      var n := |stages| - 1;
      FusedFilterHolds(lib, stages[..n], Conjoin(ConditionOf(stages[n]), own), e);
    }
  }

  lemma {:induction false} StatelessStages(lib: Library, q: Aggregate, stages: seq<Query>, st: AggState, e: Event,
      clock: nat)
    requires Runnable(q) && forall i :: 0 <= i < |stages| ==> Stateless(stages[i])
    ensures Stages(q, stages)
    ensures Staged(lib, q, stages, st, e, clock)
        == (forall i :: 0 <= i < |stages| ==> LetsThrough(lib, stages[i], e), st)
  {
    if stages != [] {
      StatelessStages(lib, q, stages[..|stages| - 1], st, e, clock);
    }
  }

  lemma {:induction false} UpdateEachIgnoresFilter(q: Aggregate, f: Option<FilterNode>, buckets: seq<Bucket>,
      chosen: seq<nat>, data: Option<Json>, t: nat)
    requires forall i :: 0 <= i < |chosen| ==> chosen[i] < |buckets|
    ensures UpdateEach(q.(filter := f), buckets, chosen, data, t) == UpdateEach(q, buckets, chosen, data, t)
  {
    if chosen != [] {
      UpdateEachIgnoresFilter(q, f, buckets, chosen[..|chosen| - 1], data, t);
    }
  }

  /** Only the decision to accept an event depends on the WHERE clause. */
  lemma ExecutedIgnoresFilter(lib: Library, q: Aggregate, f: Option<FilterNode>, st: AggState, e: Event, clock: nat)
    requires Runnable(q) && Holds(lib, f, e)
    ensures Executed(lib, q.(filter := f), st, e, clock) == Executed(lib, q.(filter := None), st, e, clock)
  {
    var t, keys := EffectiveTime(e, clock), GroupKeys(lib, q.groupBy, e.data);
    var pl := Placed(q.window, st.buckets, keys, t);
    PlaceAllInRangeFor(q.window, st.buckets, keys, t);
    UpdateEachIgnoresFilter(q, f, pl.buckets, pl.chosen, e.data, t);
    UpdateEachIgnoresFilter(q, None, pl.buckets, pl.chosen, e.data, t);
  }

  /** Pipeline fusion for one event: return value, buckets and emissions are those of the one
      aggregation whose WHERE is the conjunction of all the stages' conditions. */
  lemma PipelineFuses(lib: Library, q: Aggregate, stages: seq<Query>, st: AggState, e: Event, clock: nat)
    requires Runnable(q) && forall i :: 0 <= i < |stages| ==> Stateless(stages[i])
    ensures Stages(q, stages + [AggregateQuery(q)])
    ensures var fused := q.(filter := FusedFilter(stages, q.filter));
            Staged(lib, q, stages + [AggregateQuery(q)], st, e, clock)
                == (Passes(lib, fused, e), Executed(lib, fused, st, e, clock))
  {
    var all := stages + [AggregateQuery(q)];
    assert all[..|all| - 1] == stages;
    StatelessStages(lib, q, stages, st, e, clock);
    FusedFilterHolds(lib, stages, q.filter, e);
    var f := FusedFilter(stages, q.filter);
    if Holds(lib, f, e) {
      ExecutedIgnoresFilter(lib, q, f, st, e, clock);
      ExecutedIgnoresFilter(lib, q, q.filter, st, e, clock);
      assert q.(filter := q.filter) == q;
    }
  }

  /** A whole run of a pipeline: the values returned to the caller, and the final state. */
  ghost function PipelineRun(lib: Library, q: Aggregate, stages: seq<Query>,
      steps: seq<AggStep>): (r: (seq<bool>, AggState))
    requires Runnable(q) && forall i :: 0 <= i < |stages| ==> Stateless(stages[i])
    ensures AllAligned(q.window, r.1.buckets)
  {
    if steps == [] then ([], EMPTY_AGG)
    else
      var before := PipelineRun(lib, q, stages, steps[..|steps| - 1]);
      match steps[|steps| - 1]
      case Flush(now) =>
        KeptAligned(q.window, before.1.buckets, now);
        (before.0, Flushed(q.window, before.1, now))
      case Arrive(e, clock) =>
        PipelineFuses(lib, q, stages, before.1, e, clock);
        NextKeepsAligned(lib, q.(filter := FusedFilter(stages, q.filter)), before.1, Arrive(e, clock));
        var r := Staged(lib, q, stages + [AggregateQuery(q)], before.1, e, clock);
        (before.0 + [r.0], r.1)
  }

  ghost function Accepts(lib: Library, q: Aggregate, steps: seq<AggStep>): seq<bool> {
    if steps == [] then []
    else
      var s := steps[|steps| - 1];
      Accepts(lib, q, steps[..|steps| - 1]) + if s.Arrive? then [Passes(lib, q, s.event)] else []
  }

  /** Pipeline fusion over whole runs, with timer ticks anywhere in between. */
  lemma {:induction false} PipelineRunsFuse(lib: Library, q: Aggregate, stages: seq<Query>, steps: seq<AggStep>)
    requires Runnable(q) && forall i :: 0 <= i < |stages| ==> Stateless(stages[i])
    ensures var fused := q.(filter := FusedFilter(stages, q.filter));
            PipelineRun(lib, q, stages, steps) == (Accepts(lib, fused, steps), Run(lib, fused, steps))
  {
    if steps != [] {
      var prefix, s := steps[..|steps| - 1], steps[|steps| - 1];
      PipelineRunsFuse(lib, q, stages, prefix);
      if s.Arrive? {
        PipelineFuses(lib, q, stages, PipelineRun(lib, q, stages, prefix).1, s.event, s.clock);
      } else {
        assert Accepts(lib, q.(filter := FusedFilter(stages, q.filter)), steps)
            == Accepts(lib, q.(filter := FusedFilter(stages, q.filter)), prefix);
      }
    }
  }
}
