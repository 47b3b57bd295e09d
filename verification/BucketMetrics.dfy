/** What a bucket's numbers mean over all the events folded into it: exactly when sum() and the
    extremes are those of the named field, percentiles of repeated values, and distinct counts. */
module BucketMetrics {
  import opened Values
  import opened Text
  import opened Aggregation
  import opened AggregateRuns
  import opened Arithmetic
  import Percentiles

  // ----- what is reported

  datatype Metric = IntMetric(n: nat) | RealMetric(r: real)

  /** The value a function contributes to a result; an infinite extreme is dropped by jansson. */
  function MetricOf(f: AggFunc, b: Bucket): Option<Metric>
    requires f.percentile >= 0.0
  {
    match f.kind
    case Count => Some(IntMetric(b.count))
    case Sum => if f.field.Some? then Some(RealMetric(b.sum)) else None
    case Avg => if f.field.Some? then Some(RealMetric(if b.count > 0 then b.sum / b.count as real else 0.0)) else None
    case Min => if f.field.Some? && b.min.Some? then Some(RealMetric(b.min.value)) else None
    case Max => if f.field.Some? && b.max.Some? then Some(RealMetric(b.max.value)) else None
    case Percentile =>
      if f.field.Some? && b.percentiles != []
      then Some(RealMetric(Percentiles.Value(b.percentiles, f.percentile)))
      else None
    case Distinct => if f.field.Some? then Some(IntMetric(b.distinctCount)) else None
  }

  const NAME_ROOM: nat := 255

  /** The name a function's value goes under: a sum goes under the field's own. */
  function MetricName(lib: Library, f: AggFunc): string {
    var field := if f.field.Some? then f.field.value else "";
    match f.kind
    case Count => "count"
    case Sum => field
    case Avg => Clip("avg_" + field, NAME_ROOM)
    case Min => Clip("min_" + field, NAME_ROOM)
    case Max => Clip("max_" + field, NAME_ROOM)
    case Percentile => Clip("p" + lib.format0(f.percentile) + "_" + field, NAME_ROOM)
    case Distinct => Clip("distinct_" + field, NAME_ROOM)
  }

  predicate Reportable(funcs: seq<AggFunc>) {
    forall i :: 0 <= i < |funcs| ==> funcs[i].percentile >= 0.0
  }

  /** The object with the metrics: a later value of the same name overwrites an earlier one. */
  function Report(lib: Library, funcs: seq<AggFunc>, b: Bucket): map<string, Metric>
    requires Reportable(funcs)
  {
    if funcs == [] then map[]
    else
      var f, before := funcs[|funcs| - 1], Report(lib, funcs[..|funcs| - 1], b);
      var m := MetricOf(f, b);
      if m.Some? then before[MetricName(lib, f) := m.value] else before
  }

  /** The result event of a bucket; the window is reported unless the query has none. */
  datatype AggResult = AggResult(keys: seq<string>, metrics: map<string, Metric>, window: Option<(nat, nat)>)

  function ResultOf(lib: Library, q: Aggregate, b: Bucket): AggResult
    requires Reportable(q.funcs)
  {
    AggResult(b.keys, Report(lib, q.funcs, b), if q.window.NoWindow? then None else Some((b.start, b.end)))
  }

  // ----- batch values of a field

  function FieldValues(evs: seq<Stamped>, field: string): (r: seq<real>)
    ensures |r| == |evs|
  {
    seq(|evs|, i requires 0 <= i < |evs| => NumericValue(evs[i].0.data, field))
  }

  function BatchSum(values: seq<real>): real {
    if values == [] then 0.0 else BatchSum(values[..|values| - 1]) + values[|values| - 1]
  }

  ghost predicate IsLeast(values: seq<real>, m: real) {
    m in values && forall v :: v in values ==> m <= v
  }

  ghost predicate IsGreatest(values: seq<real>, m: real) {
    m in values && forall v :: v in values ==> v <= m
  }

  /** A bucket of any group and window, after the events `evs`. */
  function BucketOf(q: Aggregate, at: Place, evs: seq<Stamped>): Bucket {
    Folded(q, Created(at), evs)
  }

  // ----- sums

  predicate Adds(f: AggFunc) {
    f.kind in {Sum, Avg} && f.field.Some?
  }

  /** What one event adds to the accumulator. */
  function Added(funcs: seq<AggFunc>, data: Option<Json>): real {
    if funcs == [] then 0.0
    else
      var f := funcs[|funcs| - 1];
      Added(funcs[..|funcs| - 1], data) + if Adds(f) then NumericValue(data, f.field.value) else 0.0
  }

  lemma {:induction false} SumAfterEvent(b: Bucket, funcs: seq<AggFunc>, data: Option<Json>)
    ensures ApplyFuncs(b, funcs, data).sum == b.sum + Added(funcs, data)
  {
    if funcs != [] {
      SumAfterEvent(b, funcs[..|funcs| - 1], data);
    }
  }

  lemma {:induction false} NothingAdded(funcs: seq<AggFunc>, data: Option<Json>)
    requires forall j :: 0 <= j < |funcs| ==> !Adds(funcs[j])
    ensures Added(funcs, data) == 0.0
  {
    if funcs != [] {
      NothingAdded(funcs[..|funcs| - 1], data);
    }
  }

  lemma {:induction false} OneAdder(funcs: seq<AggFunc>, i: nat, data: Option<Json>)
    requires i < |funcs| && Adds(funcs[i]) && forall j :: 0 <= j < |funcs| && j != i ==> !Adds(funcs[j])
    ensures Added(funcs, data) == NumericValue(data, funcs[i].field.value)
  {
    var n := |funcs| - 1;
    if i == n {
      NothingAdded(funcs[..n], data);
    } else {
      OneAdder(funcs[..n], i, data);
    }
  }

  /** Data in which every field named by an adding function has a value of at least one. */
  lemma {:induction false} ManyAdders(funcs: seq<AggFunc>, data: Option<Json>)
    requires forall j :: 0 <= j < |funcs| && Adds(funcs[j]) ==> NumericValue(data, funcs[j].field.value) >= 0.0
    ensures Added(funcs, data) >= 0.0
    ensures forall i ::
        0 <= i < |funcs| && Adds(funcs[i]) ==> Added(funcs, data) >= NumericValue(data, funcs[i].field.value)
    ensures forall i, j :: 0 <= i < j < |funcs| && Adds(funcs[i]) && Adds(funcs[j])
              ==> Added(funcs, data)
                  >= NumericValue(data, funcs[i].field.value) + NumericValue(data, funcs[j].field.value)
  {
    if funcs != [] {
      ManyAdders(funcs[..|funcs| - 1], data);
    }
  }

  lemma {:induction false} FoldedSum(q: Aggregate, b: Bucket, evs: seq<Stamped>, field: string)
    requires forall i :: 0 <= i < |evs| ==> Added(q.funcs, evs[i].0.data) == NumericValue(evs[i].0.data, field)
    ensures Folded(q, b, evs).sum == b.sum + BatchSum(FieldValues(evs, field))
  {
    if evs != [] {
      var n := |evs| - 1;
      assert FieldValues(evs, field)[..n] == FieldValues(evs[..n], field);
      FoldedSum(q, b, evs[..n], field);
      SumAfterEvent(Counted(Folded(q, b, evs[..n]), q.window, evs[n].1), q.funcs, evs[n].0.data);
    }
  }

  function Single(data: Option<Json>): seq<Stamped> {
    [(Event(Log, 1, None, data), 1)]
  }

  lemma SingleSum(q: Aggregate, at: Place, data: Option<Json>)
    ensures BucketOf(q, at, Single(data)).sum == Added(q.funcs, data)
  {
    FoldedAppend(q, Created(at), [], Single(data)[0]);
    assert [] + [Single(data)[0]] == Single(data);
    SumAfterEvent(Counted(Created(at), q.window, 1), q.funcs, data);
  }

  /** Two fields with the given values and nothing else. */
  function TwoFields(x: string, a: int, y: string, b: int): Option<Json> {
    Some(JObject(map[y := JInt(b)][x := JInt(a)]))
  }

  lemma OtherFieldsAreZero(x: string, a: int, y: string, b: int, z: string)
    ensures NumericValue(TwoFields(x, a, y, b), x) == a as real
    ensures x != y ==> NumericValue(TwoFields(x, a, y, b), y) == b as real
    ensures z != x && z != y ==> NumericValue(TwoFields(x, a, y, b), z) == 0.0
  {
    var fields := TwoFields(x, a, y, b).value.fields;
    var dot := Span(z, NotDot);
    if z !in fields && dot < |z| && z[..dot] in fields {
      assert GetPath(fields[z[..dot]], z[dot + 1..]) == None;
    }
  }

  /** sum(field) reports the batch sum of its field, on every stream, exactly when no other sum() or
      avg() is asked for: all of them feed one accumulator. */
  lemma SumIsTheBatchSumIff(q: Aggregate, at: Place, i: nat)
    requires i < |q.funcs| && Adds(q.funcs[i])
    ensures (forall evs: seq<Stamped> :: BucketOf(q, at, evs).sum == BatchSum(FieldValues(evs, q.funcs[i].field.value)))
       <==> (forall j :: 0 <= j < |q.funcs| && j != i ==> !Adds(q.funcs[j]))
  {
    var x := q.funcs[i].field.value;
    if forall j :: 0 <= j < |q.funcs| && j != i ==> !Adds(q.funcs[j]) {
      forall evs: seq<Stamped>
        ensures BucketOf(q, at, evs).sum == BatchSum(FieldValues(evs, x))
      {
        forall k | 0 <= k < |evs|
          ensures Added(q.funcs, evs[k].0.data) == NumericValue(evs[k].0.data, x)
        {
          OneAdder(q.funcs, i, evs[k].0.data);
        }
        FoldedSum(q, Created(at), evs, x);
      }
    } else {
      var j :| 0 <= j < |q.funcs| && j != i && Adds(q.funcs[j]);
      TwoAddersAddTwice(q, at, i, j);
    }
  }

  lemma TwoAddersAddTwice(q: Aggregate, at: Place, i: nat, j: nat)
    requires i < |q.funcs| && j < |q.funcs| && i != j && Adds(q.funcs[i]) && Adds(q.funcs[j])
    ensures exists evs: seq<Stamped> :: BucketOf(q, at, evs).sum != BatchSum(FieldValues(evs, q.funcs[i].field.value))
  {
    var x, y := q.funcs[i].field.value, q.funcs[j].field.value;
    var data := TwoFields(x, 1, y, 1);
    forall k | 0 <= k < |q.funcs| && Adds(q.funcs[k])
      ensures NumericValue(data, q.funcs[k].field.value) >= 0.0
    {
      OtherFieldsAreZero(x, 1, y, 1, q.funcs[k].field.value);
    }
    OtherFieldsAreZero(x, 1, y, 1, y);
    ManyAdders(q.funcs, data);
    var evs := Single(data);
    SingleSum(q, at, data);
    var values := FieldValues(evs, x);
    assert values == [1.0] && values[..0] == [];
    assert BatchSum(values) == 1.0;
    assert BucketOf(q, at, evs).sum >= 2.0;
  }

  // ----- extremes

  predicate Lowers(f: AggFunc) {
    f.kind in {Sum, Avg, Min} && f.field.Some?
  }

  predicate Raises(f: AggFunc) {
    f.kind in {Sum, Avg, Max} && f.field.Some?
  }

  /** All functions that move the minimum name `field`. */
  predicate OnlyLowers(funcs: seq<AggFunc>, field: string) {
    forall j :: 0 <= j < |funcs| && Lowers(funcs[j]) ==> funcs[j].field.value == field
  }

  predicate OnlyRaises(funcs: seq<AggFunc>, field: string) {
    forall j :: 0 <= j < |funcs| && Raises(funcs[j]) ==> funcs[j].field.value == field
  }

  lemma ExtremesAfterFunc(b: Bucket, f: AggFunc, data: Option<Json>)
    ensures var b' := ApplyFunc(b, f, data);
            && (b.min.Some? ==> b'.min.Some? && b'.min.value <= b.min.value)
            && (b.max.Some? ==> b'.max.Some? && b'.max.value >= b.max.value)
            && (Lowers(f) ==> b'.min.Some? && b'.min.value <= NumericValue(data, f.field.value))
            && (Raises(f) ==> b'.max.Some? && b'.max.value >= NumericValue(data, f.field.value))
  {
  }

  lemma {:induction false} ExtremesAfterEvent(b: Bucket, funcs: seq<AggFunc>, data: Option<Json>)
    ensures var b' := ApplyFuncs(b, funcs, data);
            && (b.min.Some? ==> b'.min.Some? && b'.min.value <= b.min.value)
            && (b.max.Some? ==> b'.max.Some? && b'.max.value >= b.max.value)
            && (forall j :: 0 <= j < |funcs| && Lowers(funcs[j])
                  ==> b'.min.Some? && b'.min.value <= NumericValue(data, funcs[j].field.value))
            && (forall j :: 0 <= j < |funcs| && Raises(funcs[j])
                  ==> b'.max.Some? && b'.max.value >= NumericValue(data, funcs[j].field.value))
  {
    hide ApplyFunc, Lowers, Raises, NumericValue;
    if funcs != [] {
      var init, f := funcs[..|funcs| - 1], funcs[|funcs| - 1];
      assert forall j :: 0 <= j < |init| ==> funcs[j] == init[j];
      ExtremesAfterEvent(b, init, data);
      ExtremesAfterFunc(ApplyFuncs(b, init, data), f, data);
    }
  }

  lemma {:induction false} MinOfOneField(b: Bucket, funcs: seq<AggFunc>, data: Option<Json>, field: string)
    requires OnlyLowers(funcs, field)
    ensures var min := ApplyFuncs(b, funcs, data).min;
            min == b.min || min == LowerBound(b.min, NumericValue(data, field))
  {
    if funcs != [] {
      MinOfOneField(b, funcs[..|funcs| - 1], data, field);
    }
  }

  lemma {:induction false} MaxOfOneField(b: Bucket, funcs: seq<AggFunc>, data: Option<Json>, field: string)
    requires OnlyRaises(funcs, field)
    ensures var max := ApplyFuncs(b, funcs, data).max;
            max == b.max || max == UpperBound(b.max, NumericValue(data, field))
  {
    if funcs != [] {
      MaxOfOneField(b, funcs[..|funcs| - 1], data, field);
    }
  }

  lemma {:induction false} FoldedMin(q: Aggregate, at: Place, i: nat, evs: seq<Stamped>)
    requires i < |q.funcs| && Lowers(q.funcs[i]) && OnlyLowers(q.funcs, q.funcs[i].field.value)
    ensures var min := BucketOf(q, at, evs).min;
            if evs == [] then min == None else min.Some? && IsLeast(FieldValues(evs, q.funcs[i].field.value), min.value)
  {
    if evs != [] {
      var n, x := |evs| - 1, q.funcs[i].field.value;
      FoldedMin(q, at, i, evs[..n]);
      var before := Counted(BucketOf(q, at, evs[..n]), q.window, evs[n].1);
      ExtremesAfterEvent(before, q.funcs, evs[n].0.data);
      MinOfOneField(before, q.funcs, evs[n].0.data, x);
      assert FieldValues(evs, x) == FieldValues(evs[..n], x) + [NumericValue(evs[n].0.data, x)];
    }
  }

  lemma {:induction false} FoldedMax(q: Aggregate, at: Place, i: nat, evs: seq<Stamped>)
    requires i < |q.funcs| && Raises(q.funcs[i]) && OnlyRaises(q.funcs, q.funcs[i].field.value)
    ensures var max := BucketOf(q, at, evs).max;
            if evs == [] then max == None
            else max.Some? && IsGreatest(FieldValues(evs, q.funcs[i].field.value), max.value)
  {
    if evs != [] {
      var n, x := |evs| - 1, q.funcs[i].field.value;
      FoldedMax(q, at, i, evs[..n]);
      var before := Counted(BucketOf(q, at, evs[..n]), q.window, evs[n].1);
      ExtremesAfterEvent(before, q.funcs, evs[n].0.data);
      MaxOfOneField(before, q.funcs, evs[n].0.data, x);
      assert FieldValues(evs, x) == FieldValues(evs[..n], x) + [NumericValue(evs[n].0.data, x)];
    }
  }

  lemma SingleBucket(q: Aggregate, at: Place, data: Option<Json>)
    ensures BucketOf(q, at, Single(data)) == ApplyFuncs(Counted(Created(at), q.window, 1), q.funcs, data)
  {
    FoldedAppend(q, Created(at), [], Single(data)[0]);
    assert [] + [Single(data)[0]] == Single(data);
  }

  /** min(field) reports the least value of its field, on every non-empty stream, exactly when every
      sum(), avg() and min() of the query names that field. */
  lemma MinIsTheLeastIff(q: Aggregate, at: Place, i: nat)
    requires i < |q.funcs| && Lowers(q.funcs[i])
    ensures (forall evs: seq<Stamped> :: evs != [] ==>
               BucketOf(q, at, evs).min.Some?
                   && IsLeast(FieldValues(evs, q.funcs[i].field.value), BucketOf(q, at, evs).min.value))
       <==> OnlyLowers(q.funcs, q.funcs[i].field.value)
  {
    var x := q.funcs[i].field.value;
    if OnlyLowers(q.funcs, x) {
      forall evs: seq<Stamped> | evs != []
        ensures BucketOf(q, at, evs).min.Some? && IsLeast(FieldValues(evs, x), BucketOf(q, at, evs).min.value)
      {
        FoldedMin(q, at, i, evs);
      }
    } else {
      var j :| 0 <= j < |q.funcs| && Lowers(q.funcs[j]) && q.funcs[j].field.value != x;
      var data := TwoFields(x, 1, q.funcs[j].field.value, 0);
      OtherFieldsAreZero(x, 1, q.funcs[j].field.value, 0, x);
      SingleBucket(q, at, data);
      ExtremesAfterEvent(Counted(Created(at), q.window, 1), q.funcs, data);
      var evs := Single(data);
      assert FieldValues(evs, x) == [1.0];
      assert BucketOf(q, at, evs).min.value <= 0.0;
    }
  }

  /** max(field), likewise, exactly when every sum(), avg() and max() names that field. */
  lemma MaxIsTheGreatestIff(q: Aggregate, at: Place, i: nat)
    requires i < |q.funcs| && Raises(q.funcs[i])
    ensures (forall evs: seq<Stamped> :: evs != [] ==>
               BucketOf(q, at, evs).max.Some?
                   && IsGreatest(FieldValues(evs, q.funcs[i].field.value), BucketOf(q, at, evs).max.value))
       <==> OnlyRaises(q.funcs, q.funcs[i].field.value)
  {
    var x := q.funcs[i].field.value;
    if OnlyRaises(q.funcs, x) {
      forall evs: seq<Stamped> | evs != []
        ensures BucketOf(q, at, evs).max.Some? && IsGreatest(FieldValues(evs, x), BucketOf(q, at, evs).max.value)
      {
        FoldedMax(q, at, i, evs);
      }
    } else {
      var j :| 0 <= j < |q.funcs| && Raises(q.funcs[j]) && q.funcs[j].field.value != x;
      var data := TwoFields(x, 0, q.funcs[j].field.value, 1);
      OtherFieldsAreZero(x, 0, q.funcs[j].field.value, 1, x);
      SingleBucket(q, at, data);
      ExtremesAfterEvent(Counted(Created(at), q.window, 1), q.funcs, data);
      var evs := Single(data);
      assert FieldValues(evs, x) == [0.0];
      assert BucketOf(q, at, evs).max.value >= 1.0;
    }
  }

  // ----- what is reported of sums and extremes

  lemma OnlyAdder(q: Aggregate, at: Place, i: nat, evs: seq<Stamped>)
    requires i < |q.funcs| && Adds(q.funcs[i]) && forall j :: 0 <= j < |q.funcs| && j != i ==> !Adds(q.funcs[j])
    ensures BucketOf(q, at, evs).sum == BatchSum(FieldValues(evs, q.funcs[i].field.value))
  {
    SumIsTheBatchSumIff(q, at, i);
  }

  function Total(f: AggFunc, values: seq<real>): real
    requires values != []
  {
    if f.kind == Avg then BatchSum(values) / |values| as real else BatchSum(values)
  }

  lemma QuotientsDiffer(a: real, b: real, n: nat)
    requires n > 0
    ensures a / n as real == b / n as real <==> a == b
  {
    assert a / n as real * n as real == a && b / n as real * n as real == b;
  }

  /** The reported sum is the batch sum, and the reported avg the batch mean, on every non-empty stream,
      exactly when the query has no other sum() or avg(). */
  lemma TotalIsReportedIff(q: Aggregate, at: Place, i: nat)
    requires i < |q.funcs| && Adds(q.funcs[i]) && q.funcs[i].percentile >= 0.0
    ensures (forall evs: seq<Stamped> :: evs != [] ==>
               MetricOf(q.funcs[i], BucketOf(q, at, evs))
                   == Some(RealMetric(Total(q.funcs[i], FieldValues(evs, q.funcs[i].field.value)))))
       <==> (forall j :: 0 <= j < |q.funcs| && j != i ==> !Adds(q.funcs[j]))
  {
    hide BatchSum, FieldValues;
    var f := q.funcs[i];
    if forall j :: 0 <= j < |q.funcs| && j != i ==> !Adds(q.funcs[j]) {
      forall evs: seq<Stamped> | evs != []
        ensures MetricOf(f, BucketOf(q, at, evs)) == Some(RealMetric(Total(f, FieldValues(evs, f.field.value))))
      {
        OnlyAdder(q, at, i, evs);
        FoldedKeeps(q, Created(at), evs);
      }
    } else {
      var j :| 0 <= j < |q.funcs| && j != i && Adds(q.funcs[j]);
      TwoAddersAddTwice(q, at, i, j);
      var evs: seq<Stamped> :| BucketOf(q, at, evs).sum != BatchSum(FieldValues(evs, f.field.value));
      NothingAddsUp(q, at, f.field.value);
      FoldedKeeps(q, Created(at), evs);
      QuotientsDiffer(BucketOf(q, at, evs).sum, BatchSum(FieldValues(evs, f.field.value)), |evs|);
    }
  }

  lemma NothingAddsUp(q: Aggregate, at: Place, field: string)
    ensures BucketOf(q, at, []).sum == BatchSum(FieldValues([], field)) == 0.0
  {
  }

  ghost predicate ReportsLeast(q: Aggregate, at: Place, f: AggFunc, evs: seq<Stamped>)
    requires f.percentile >= 0.0 && f.field.Some?
  {
    var m := MetricOf(f, BucketOf(q, at, evs));
    m.Some? && m.value.RealMetric? && IsLeast(FieldValues(evs, f.field.value), m.value.r)
  }

  ghost predicate ReportsGreatest(q: Aggregate, at: Place, f: AggFunc, evs: seq<Stamped>)
    requires f.percentile >= 0.0 && f.field.Some?
  {
    var m := MetricOf(f, BucketOf(q, at, evs));
    m.Some? && m.value.RealMetric? && IsGreatest(FieldValues(evs, f.field.value), m.value.r)
  }

  /** The reported min is the least value of the field on every non-empty stream exactly when every function
      that lowers the minimum names that field. */
  lemma MinIsReportedIff(q: Aggregate, at: Place, i: nat)
    requires i < |q.funcs| && q.funcs[i].kind == Min && q.funcs[i].field.Some? && q.funcs[i].percentile >= 0.0
    ensures (forall evs: seq<Stamped> :: evs != [] ==> ReportsLeast(q, at, q.funcs[i], evs))
       <==> OnlyLowers(q.funcs, q.funcs[i].field.value)
  {
    hide FieldValues, OnlyLowers, IsLeast, BucketOf;
    MinIsTheLeastIff(q, at, i);
    forall evs: seq<Stamped>
      ensures ReportsLeast(q, at, q.funcs[i], evs)
         <==> var min := BucketOf(q, at, evs).min;
              min.Some? && IsLeast(FieldValues(evs, q.funcs[i].field.value), min.value)
    {
    }
  }

  /** The reported max, likewise. */
  lemma MaxIsReportedIff(q: Aggregate, at: Place, i: nat)
    requires i < |q.funcs| && q.funcs[i].kind == Max && q.funcs[i].field.Some? && q.funcs[i].percentile >= 0.0
    ensures (forall evs: seq<Stamped> :: evs != [] ==> ReportsGreatest(q, at, q.funcs[i], evs))
       <==> OnlyRaises(q.funcs, q.funcs[i].field.value)
  {
    hide FieldValues, OnlyRaises, IsGreatest, BucketOf;
    MaxIsTheGreatestIff(q, at, i);
    forall evs: seq<Stamped>
      ensures ReportsGreatest(q, at, q.funcs[i], evs)
         <==> var max := BucketOf(q, at, evs).max;
              max.Some? && IsGreatest(FieldValues(evs, q.funcs[i].field.value), max.value)
    {
    }
  }

  /** count is the number of events, whatever else the query computes. */
  lemma CountIsReported(q: Aggregate, at: Place, i: nat, evs: seq<Stamped>)
    requires i < |q.funcs| && q.funcs[i].kind == Count && q.funcs[i].percentile >= 0.0
    ensures MetricOf(q.funcs[i], BucketOf(q, at, evs)) == Some(IntMetric(|evs|))
  {
    FoldedKeeps(q, Created(at), evs);
  }

  // ----- percentiles

  predicate Stores(f: AggFunc) {
    f.kind == Percentile && f.field.Some?
  }

  function StoreCount(funcs: seq<AggFunc>): nat {
    if funcs == [] then 0 else StoreCount(funcs[..|funcs| - 1]) + if Stores(funcs[|funcs| - 1]) then 1 else 0
  }

  predicate OnlyStores(funcs: seq<AggFunc>, field: string) {
    forall j :: 0 <= j < |funcs| && Stores(funcs[j]) ==> funcs[j].field.value == field
  }

  /** Every function that stores sees the value `v` in this data. */
  predicate StoresSee(funcs: seq<AggFunc>, data: Option<Json>, v: real) {
    forall j :: 0 <= j < |funcs| && Stores(funcs[j]) ==> NumericValue(data, funcs[j].field.value) == v
  }

  lemma {:induction false} StoredAfterEvent(b: Bucket, funcs: seq<AggFunc>, data: Option<Json>, v: real)
    requires StoresSee(funcs, data, v)
    ensures ApplyFuncs(b, funcs, data).percentiles == b.percentiles + Percentiles.Times(v, StoreCount(funcs))
  {
    if funcs == [] {
      assert b.percentiles + Percentiles.Times(v, 0) == b.percentiles;
    } else {
      var init := funcs[..|funcs| - 1];
      StoredAfterEvent(b, init, data, v);
      assert Percentiles.Times(v, StoreCount(init)) + [v] == Percentiles.Times(v, StoreCount(init) + 1);
    }
  }

  lemma {:induction false} FoldedPercentiles(q: Aggregate, at: Place, evs: seq<Stamped>, values: seq<real>)
    requires |values| == |evs| && forall k :: 0 <= k < |evs| ==> StoresSee(q.funcs, evs[k].0.data, values[k])
    ensures BucketOf(q, at, evs).percentiles == Percentiles.Repeat(values, StoreCount(q.funcs))
  {
    if evs != [] {
      var n := |evs| - 1;
      FoldedPercentiles(q, at, evs[..n], values[..n]);
      StoredAfterEvent(Counted(BucketOf(q, at, evs[..n]), q.window, evs[n].1), q.funcs, evs[n].0.data, values[n]);
    }
  }

  lemma {:induction false} StoreCounted(funcs: seq<AggFunc>, i: nat)
    requires i < |funcs| && Stores(funcs[i])
    ensures StoreCount(funcs) > 0
  {
    if i < |funcs| - 1 {
      StoreCounted(funcs[..|funcs| - 1], i);
    }
  }

  /** However many percentiles of one field a query asks for, each is the percentile of the field's
      values as they came, although every value is stored once per function. */
  lemma PercentileOfOneField(q: Aggregate, at: Place, i: nat, evs: seq<Stamped>)
    requires i < |q.funcs| && Stores(q.funcs[i]) && q.funcs[i].percentile >= 0.0 && evs != []
    requires OnlyStores(q.funcs, q.funcs[i].field.value)
    ensures MetricOf(q.funcs[i], BucketOf(q, at, evs))
         == Some(RealMetric(Percentiles.Value(FieldValues(evs, q.funcs[i].field.value), q.funcs[i].percentile)))
  {
    StoreCounted(q.funcs, i);
    FoldedPercentiles(q, at, evs, FieldValues(evs, q.funcs[i].field.value));
    Percentiles.RepeatingKeepsPercentiles(FieldValues(evs, q.funcs[i].field.value), StoreCount(q.funcs),
        q.funcs[i].percentile);
  }

  // ----- distinct counts

  /** The values distinct() looks at, in order. */
  function Seen(funcs: seq<AggFunc>, data: Option<Json>): seq<real> {
    if funcs == [] then []
    else
      var f := funcs[|funcs| - 1];
      Seen(funcs[..|funcs| - 1], data)
      + if f.kind == Distinct && f.field.Some? then [NumericValue(data, f.field.value)] else []
  }

  function SeenIn(funcs: seq<AggFunc>, evs: seq<Stamped>): seq<real> {
    if evs == [] then [] else SeenIn(funcs, evs[..|evs| - 1]) + Seen(funcs, evs[|evs| - 1].0.data)
  }

  /** The greedy net: a value is stored unless a stored one is close to it. */
  function Net(values: seq<real>): seq<real> {
    if values == [] then []
    else
      var net, v := Net(values[..|values| - 1]), values[|values| - 1];
      if Known(net, v) then net else net + [v]
  }

  lemma NetAppend(values: seq<real>, v: real)
    ensures Net(values + [v]) == if Known(Net(values), v) then Net(values) else Net(values) + [v]
  {
    assert (values + [v])[..|values|] == values;
  }

  lemma DistinctAfterFunction(b: Bucket, f: AggFunc, data: Option<Json>, values: seq<real>)
    requires b.distinct == Net(values) && b.distinctCount == |b.distinct|
    ensures
      var b' := ApplyFunc(b, f, data);
      && b'.distinctCount == |b'.distinct|
      && b'.distinct
         == Net(if f.kind == Distinct && f.field.Some? then values + [NumericValue(data, f.field.value)] else values)
  {
    hide Net, NumericValue, Known;
    if f.kind == Distinct && f.field.Some? {
      NetAppend(values, NumericValue(data, f.field.value));
    }
  }

  lemma SeenMore(values: seq<real>, funcs: seq<AggFunc>, data: Option<Json>)
    requires funcs != []
    ensures
      var init, f := funcs[..|funcs| - 1], funcs[|funcs| - 1];
      values + Seen(funcs, data)
      == if f.kind == Distinct && f.field.Some? then values + Seen(init, data) + [NumericValue(data, f.field.value)]
         else values + Seen(init, data)
  {
    hide NumericValue;
  }

  lemma {:induction false} DistinctAfterEvent(b: Bucket, funcs: seq<AggFunc>, data: Option<Json>, values: seq<real>)
    requires b.distinct == Net(values) && b.distinctCount == |b.distinct|
    ensures var b' := ApplyFuncs(b, funcs, data);
            b'.distinct == Net(values + Seen(funcs, data)) && b'.distinctCount == |b'.distinct|
  {
    hide Net, NumericValue, ApplyFunc, Known;
    if funcs == [] {
      assert values + [] == values;
    } else {
      hide Seen;
      var init, f := funcs[..|funcs| - 1], funcs[|funcs| - 1];
      DistinctAfterEvent(b, init, data, values);
      DistinctAfterFunction(ApplyFuncs(b, init, data), f, data, values + Seen(init, data));
      SeenMore(values, funcs, data);
    }
  }

  /** The stored values of a bucket are the net of everything distinct() looked at, and are counted. */
  lemma {:induction false} FoldedDistinct(q: Aggregate, at: Place, evs: seq<Stamped>)
    ensures var b := BucketOf(q, at, evs);
            b.distinct == Net(SeenIn(q.funcs, evs)) && b.distinctCount == |b.distinct|
  {
    if evs != [] {
      var n := |evs| - 1;
      FoldedDistinct(q, at, evs[..n]);
      DistinctAfterEvent(Counted(BucketOf(q, at, evs[..n]), q.window, evs[n].1), q.funcs, evs[n].0.data,
          SeenIn(q.funcs, evs[..n]));
    }
  }

  ghost predicate Apart(s: seq<real>) {
    forall i, j :: 0 <= i < j < |s| ==> !Close(s[i], s[j])
  }

  /** The net: stored values are pairwise 1e-9 apart, every value seen is closer than that to a stored
      one, and nothing is stored that was not seen. */
  lemma {:induction false} NetIsANet(values: seq<real>)
    ensures Apart(Net(values))
    ensures forall i :: 0 <= i < |values| ==> Known(Net(values), values[i])
    ensures forall v :: v in Net(values) ==> v in values
  {
    if values != [] {
      var init, v := values[..|values| - 1], values[|values| - 1];
      var net := Net(init);
      NetIsANet(init);
      assert values == init + [v];
      forall i | 0 <= i < |values| ensures Known(Net(values), values[i]) {
        if i < |init| {
          assert values[i] == init[i] && Known(net, init[i]);
          var k :| 0 <= k < |net| && Close(net[k], init[i]);
          assert Net(values)[k] == net[k];
        } else if !Known(net, v) {
          assert Close(Net(values)[|net|], v);
        }
      }
    }
  }

  function Range(values: seq<real>): set<real> {
    set v | v in values
  }

  lemma {:induction false} ApartHasNoDuplicates(s: seq<real>)
    requires Apart(s)
    ensures |Range(s)| == |s|
  {
    if s != [] {
      var init, v := s[..|s| - 1], s[|s| - 1];
      ApartHasNoDuplicates(init);
      assert Range(s) == Range(init) + {v};
    }
  }

  lemma ApartMembers(s: seq<real>, v: real, w: real)
    requires Apart(s) && v in s && w in s && v != w
    ensures !Close(v, w)
  {
    var i :| 0 <= i < |s| && s[i] == v;
    var j :| 0 <= j < |s| && s[j] == w;
    assert !Close(s[if i < j then i else j], s[if i < j then j else i]);
  }

  /** The count is the exact number of different values exactly when different values are 1e-9 apart. */
  lemma DistinctIsExactIff(values: seq<real>)
    ensures |Net(values)| == |Range(values)|
       <==> forall v, w :: v in values && w in values && v != w ==> !Close(v, w)
  {
    NetIsANet(values);
    ApartHasNoDuplicates(Net(values));
    var net, all := Range(Net(values)), Range(values);
    assert net <= all;
    if forall v, w :: v in values && w in values && v != w ==> !Close(v, w) {
      forall v | v in all ensures v in net {
        NetHas(values, v);
      }
      assert net == all;
    } else {
      var v, w :| v in values && w in values && v != w && Close(v, w);
      if v in Net(values) && w in Net(values) {
        ApartMembers(Net(values), v, w);
      }
      var x := if v in net then w else v;
      assert net <= all - {x};
      SubsetSize(net, all - {x});
    }
  }

  lemma NetHas(values: seq<real>, v: real)
    requires v in values && forall w :: w in values && v != w ==> !Close(w, v)
    ensures v in Net(values)
  {
    NetIsANet(values);
    var i :| 0 <= i < |values| && values[i] == v;
    var k :| 0 <= k < |Net(values)| && Close(Net(values)[k], v);
    assert Net(values)[k] in Net(values);
  }
}
