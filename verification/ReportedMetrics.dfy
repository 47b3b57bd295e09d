/** Reading a result: every function puts its value under a name into one object, and when each of them
    can be found there again. */
module ReportedMetrics {
  import opened Values
  import opened Text
  import opened Aggregation
  import opened AggregateRuns
  import opened BucketMetrics
  import Percentiles

  // ----- one result

  /** The function at `i` puts a value under `name` into the report of `b`. */
  predicate Puts(lib: Library, funcs: seq<AggFunc>, b: Bucket, i: nat, name: string)
    requires Reportable(funcs) && i < |funcs|
  {
    MetricName(lib, funcs[i]) == name && MetricOf(funcs[i], b).Some?
  }

  /** The last value put under a name is the one reported. */
  lemma {:induction false} LastValueStays(lib: Library, funcs: seq<AggFunc>, b: Bucket, i: nat, name: string)
    requires Reportable(funcs) && i < |funcs| && Puts(lib, funcs, b, i, name)
    requires forall j: nat :: i < j < |funcs| ==> !Puts(lib, funcs, b, j, name)
    ensures name in Report(lib, funcs, b) && Some(Report(lib, funcs, b)[name]) == MetricOf(funcs[i], b)
  {
    hide MetricOf, MetricName;
    var n := |funcs| - 1;
    if i < n {
      assert forall j: nat :: j < n ==> Puts(lib, funcs[..n], b, j, name) == Puts(lib, funcs, b, j, name);
      LastValueStays(lib, funcs[..n], b, i, name);
      assert !Puts(lib, funcs, b, n, name);
    }
  }

  /** Nothing else is reported. */
  lemma {:induction false} ReportedIsPut(lib: Library, funcs: seq<AggFunc>, b: Bucket, name: string) returns (i: nat)
    requires Reportable(funcs) && name in Report(lib, funcs, b)
    ensures i < |funcs| && Puts(lib, funcs, b, i, name)
  {
    hide MetricOf, MetricName;
    var n := |funcs| - 1;
    if Puts(lib, funcs, b, n, name) {
      i := n;
    } else {
      i := ReportedIsPut(lib, funcs[..n], b, name);
    }
  }

  lemma LastPutter(lib: Library, funcs: seq<AggFunc>, b: Bucket, i: nat, name: string) returns (last: nat)
    requires Reportable(funcs) && i < |funcs| && Puts(lib, funcs, b, i, name)
    ensures i <= last < |funcs| && Puts(lib, funcs, b, last, name)
    ensures forall j: nat :: last < j < |funcs| ==> !Puts(lib, funcs, b, j, name)
    decreases |funcs| - i
  {
    if j: nat :| i < j < |funcs| && Puts(lib, funcs, b, j, name) {
      last := LastPutter(lib, funcs, b, j, name);
    } else {
      last := i;
    }
  }

  /** Everything a function puts into the report of `b` can be read there. */
  ghost predicate AllRead(lib: Library, funcs: seq<AggFunc>, b: Bucket)
    requires Reportable(funcs)
  {
    forall i: nat, name: string :: i < |funcs| && Puts(lib, funcs, b, i, name) ==>
      name in Report(lib, funcs, b) && Some(Report(lib, funcs, b)[name]) == MetricOf(funcs[i], b)
  }

  lemma ClashHides(lib: Library, funcs: seq<AggFunc>, b: Bucket, i: nat, j: nat, name: string)
    requires Reportable(funcs) && i < |funcs| && j < |funcs|
    requires Puts(lib, funcs, b, i, name) && Puts(lib, funcs, b, j, name)
    requires MetricOf(funcs[i], b) != MetricOf(funcs[j], b)
    ensures !AllRead(lib, funcs, b)
  {
    hide Report, MetricName, MetricOf;
  }

  lemma NoClashReads(lib: Library, funcs: seq<AggFunc>, b: Bucket)
    requires Reportable(funcs)
    requires forall i: nat, j: nat, name: string ::
               i < |funcs| && j < |funcs| && Puts(lib, funcs, b, i, name) && Puts(lib, funcs, b, j, name) ==>
               MetricOf(funcs[i], b) == MetricOf(funcs[j], b)
    ensures AllRead(lib, funcs, b)
  {
    hide Report, MetricName, MetricOf;
    forall i: nat, name: string | i < |funcs| && Puts(lib, funcs, b, i, name)
      ensures name in Report(lib, funcs, b) && Some(Report(lib, funcs, b)[name]) == MetricOf(funcs[i], b)
    {
      var last := LastPutter(lib, funcs, b, i, name);
      LastValueStays(lib, funcs, b, last, name);
    }
  }

  /** It can fail: a sum of a field named `count` hides the count. */
  lemma SumHidesTheCount(lib: Library, b: Bucket)
    ensures
      var funcs := [AggFunc(Count, None, 0.0), AggFunc(Sum, Some("count"), 0.0)];
      Reportable(funcs) && Report(lib, funcs, b) == map["count" := RealMetric(b.sum)]
  {
    var funcs := [AggFunc(Count, None, 0.0), AggFunc(Sum, Some("count"), 0.0)];
    assert funcs[..1] == [funcs[0]] && [funcs[0]][..0] == [];
    assert Report(lib, [funcs[0]], b) == map["count" := IntMetric(b.count)];
  }

  // ----- names

  /** Functions that report a value on every non-empty stream. */
  predicate Reports(f: AggFunc) {
    f.kind == Count || f.field.Some?
  }

  lemma ClippedStart(s: string)
    requires |s| >= 2
    ensures |Clip(s, NAME_ROOM)| >= 2 && Clip(s, NAME_ROOM)[..2] == s[..2]
  {
  }

  /** The first characters of a name tell the kind, unless it is the name of a field. */
  lemma NameTellsKind(lib: Library, f: AggFunc, g: AggFunc)
    requires f.kind != Sum && g.kind != Sum && MetricName(lib, f) == MetricName(lib, g)
    ensures f.kind == g.kind
  {
    hide Clip;
    NameStart(lib, f);
    NameStart(lib, g);
    assert "co"[0] == 'c' && "av"[0] == 'a' && "mi"[1] == 'i' && "ma"[1] == 'a' && "di"[0] == 'd';
  }

  lemma NameStart(lib: Library, f: AggFunc)
    requires f.kind != Sum
    ensures |MetricName(lib, f)| >= 2
    ensures f.kind == Count ==> MetricName(lib, f)[..2] == "co"
    ensures f.kind == Avg ==> MetricName(lib, f)[..2] == "av"
    ensures f.kind == Min ==> MetricName(lib, f)[..2] == "mi"
    ensures f.kind == Max ==> MetricName(lib, f)[..2] == "ma"
    ensures f.kind == Percentile ==> MetricName(lib, f)[0] == 'p'
    ensures f.kind == Distinct ==> MetricName(lib, f)[..2] == "di"
  {
    hide Clip;
    var field := if f.field.Some? then f.field.value else "";
    ClippedStart("avg_" + field);
    ClippedStart("min_" + field);
    ClippedStart("max_" + field);
    ClippedStart("distinct_" + field);
    var named := "p" + lib.format0(f.percentile) + "_" + field;
    ClippedStart(named);
    assert named[..2][0] == 'p';
    assert f.kind == Percentile ==> Clip(named, NAME_ROOM)[..2][0] == 'p';
  }

  // ----- streams that tell functions apart

  function FieldsOf(funcs: seq<AggFunc>): set<string> {
    if funcs == [] then {}
    else
      var f := funcs[|funcs| - 1];
      FieldsOf(funcs[..|funcs| - 1]) + if f.field.Some? then {f.field.value} else {}
  }

  lemma {:induction false} FieldsOfAll(funcs: seq<AggFunc>, i: nat)
    requires i < |funcs| && funcs[i].field.Some?
    ensures funcs[i].field.value in FieldsOf(funcs)
  {
    if i < |funcs| - 1 {
      FieldsOfAll(funcs[..|funcs| - 1], i);
    }
  }

  /** Data in which every field the query names is `v`. */
  function Uniform(funcs: seq<AggFunc>, v: int): Option<Json> {
    Some(JObject(map x | x in FieldsOf(funcs) :: JInt(v)))
  }

  lemma UniformValue(funcs: seq<AggFunc>, i: nat, v: int)
    requires i < |funcs| && funcs[i].field.Some?
    ensures NumericValue(Uniform(funcs, v), funcs[i].field.value) == v as real
  {
    FieldsOfAll(funcs, i);
  }

  function Stream(funcs: seq<AggFunc>, n: nat, v: int, step: int): (evs: seq<Stamped>)
    ensures |evs| == n
    ensures forall k :: 0 <= k < n ==> evs[k].0.data == Uniform(funcs, v + step * k) && evs[k].1 == 1
  {
    seq(n, k requires 0 <= k < n => (Event(Log, 1, None, Uniform(funcs, v + step * k)), 1))
  }

  lemma StreamStores(q: Aggregate, at: Place, n: nat, v: int, step: int, values: seq<real>)
    requires |values| == n && forall k :: 0 <= k < n ==> values[k] == (v + step * k) as real
    ensures BucketOf(q, at, Stream(q.funcs, n, v, step)).percentiles == Percentiles.Repeat(values, StoreCount(q.funcs))
  {
    var evs := Stream(q.funcs, n, v, step);
    forall k | 0 <= k < n ensures StoresSee(q.funcs, evs[k].0.data, values[k]) {
      forall j | 0 <= j < |q.funcs| && Stores(q.funcs[j])
        ensures NumericValue(evs[k].0.data, q.funcs[j].field.value) == values[k]
      {
        UniformValue(q.funcs, j, v + step * k);
      }
    }
    FoldedPercentiles(q, at, evs, values);
  }

  /** Percentiles that differ below the hundredth are told apart by a ramp. */
  lemma PercentilesPart(q: Aggregate, at: Place, i: nat, j: nat) returns (evs: seq<Stamped>)
    requires Reportable(q.funcs) && i < |q.funcs| && j < |q.funcs| && Stores(q.funcs[i]) && Stores(q.funcs[j])
    requires Percentiles.Clamped(q.funcs[i].percentile) != Percentiles.Clamped(q.funcs[j].percentile)
    ensures evs != [] && BucketOf(q, at, evs).percentiles != []
    ensures MetricOf(q.funcs[i], BucketOf(q, at, evs)) != MetricOf(q.funcs[j], BucketOf(q, at, evs))
  {
    hide BucketOf, Percentiles.Value, Percentiles.Repeat, Percentiles.Clamped;
    var n := Percentiles.RampTellsApart(q.funcs[i].percentile, q.funcs[j].percentile);
    evs := Stream(q.funcs, n, 0, 1);
    var values := Percentiles.Ramp(n);
    StreamStores(q, at, n, 0, 1, values);
    StoreCounted(q.funcs, i);
    Percentiles.RepeatingKeepsPercentiles(values, StoreCount(q.funcs), q.funcs[i].percentile);
    Percentiles.RepeatingKeepsPercentiles(values, StoreCount(q.funcs), q.funcs[j].percentile);
  }

  lemma {:induction false} MaxBounded(b: Bucket, funcs: seq<AggFunc>, data: Option<Json>, m: real)
    requires b.max.Some? ==> b.max.value <= m
    requires forall j :: 0 <= j < |funcs| && Raises(funcs[j]) ==> NumericValue(data, funcs[j].field.value) <= m
    ensures var max := ApplyFuncs(b, funcs, data).max; max.Some? ==> max.value <= m
  {
    if funcs != [] {
      MaxBounded(b, funcs[..|funcs| - 1], data, m);
    }
  }

  lemma FoldedTwo(q: Aggregate, b: Bucket, x: Stamped, y: Stamped)
    ensures Folded(q, b, [x, y]) == Updated(q, Updated(q, b, x.0.data, x.1), y.0.data, y.1)
  {
    hide Updated;
    assert [x, y][..1] == [x] && [x][..0] == [];
    assert Folded(q, b, [x]) == Updated(q, b, x.0.data, x.1);
  }

  /** What two events of all ones leave: a sum of at least two, extremes of one, and ones stored. */
  lemma TwoOnes(q: Aggregate, at: Place) returns (evs: seq<Stamped>)
    ensures evs != []
    ensures
      var b := BucketOf(q, at, evs);
      && b.count == 2
      && ((exists i :: 0 <= i < |q.funcs| && Adds(q.funcs[i])) ==> b.sum >= 2.0)
      && ((exists i :: 0 <= i < |q.funcs| && Lowers(q.funcs[i])) ==> b.min.Some? && b.min.value <= 1.0)
      && ((exists i :: 0 <= i < |q.funcs| && Raises(q.funcs[i])) ==> b.max.Some? && b.max.value <= 1.0)
      && b.percentiles == Percentiles.Repeat([1.0, 1.0], StoreCount(q.funcs))
  {
    hide ApplyFuncs, Uniform, NumericValue, FreshBucket;
    var data := Uniform(q.funcs, 1);
    evs := Stream(q.funcs, 2, 1, 0);
    forall j | 0 <= j < |q.funcs| && q.funcs[j].field.Some?
      ensures NumericValue(data, q.funcs[j].field.value) == 1.0
    {
      UniformValue(q.funcs, j, 1);
    }
    FoldedTwo(q, Created(at), evs[0], evs[1]);
    assert evs == [evs[0], evs[1]];
    var b0 := Counted(Created(at), q.window, 1);
    var b1 := Counted(ApplyFuncs(b0, q.funcs, data), q.window, 1);
    assert BucketOf(q, at, evs) == ApplyFuncs(b1, q.funcs, data);
    EmptyAccumulators(at, q.window);
    AfterOnes(q, b0, data);
    AfterOnes(q, b1, data);
    FoldedKeeps(q, Created(at), evs);
    StreamStores(q, at, 2, 1, 0, [1.0, 1.0]);
  }

  lemma EmptyAccumulators(at: Place, w: Window)
    ensures var b := Counted(Created(at), w, 1); b.sum == 0.0 && b.min == None && b.max == None
    ensures Created(at).count == 0
  {
  }

  lemma AfterOnes(q: Aggregate, b: Bucket, data: Option<Json>)
    requires b.max.Some? ==> b.max.value <= 1.0
    requires forall j ::
               0 <= j < |q.funcs| && q.funcs[j].field.Some? ==> NumericValue(data, q.funcs[j].field.value) == 1.0
    ensures
      var b' := ApplyFuncs(b, q.funcs, data);
      && ((exists i :: 0 <= i < |q.funcs| && Adds(q.funcs[i])) ==> b'.sum >= b.sum + 1.0)
      && ((exists i :: 0 <= i < |q.funcs| && Lowers(q.funcs[i])) ==> b'.min.Some? && b'.min.value <= 1.0)
      && ((exists i :: 0 <= i < |q.funcs| && Raises(q.funcs[i])) ==> b'.max.Some?)
      && (b'.max.Some? ==> b'.max.value <= 1.0)
  {
    hide ApplyFuncs, NumericValue, Added;
    SumAfterEvent(b, q.funcs, data);
    ManyAdders(q.funcs, data);
    ExtremesAfterEvent(b, q.funcs, data);
    MaxBounded(b, q.funcs, data, 1.0);
  }

  /** A sum is told apart from every other kind by two events of all ones. */
  lemma SumStandsOut(q: Aggregate, at: Place, i: nat, j: nat) returns (evs: seq<Stamped>)
    requires Reportable(q.funcs) && i < |q.funcs| && j < |q.funcs| && Reports(q.funcs[i]) && Reports(q.funcs[j])
    requires q.funcs[i].kind == Sum && q.funcs[j].kind != Sum
    ensures evs != []
    ensures
      var m, m' := MetricOf(q.funcs[i], BucketOf(q, at, evs)), MetricOf(q.funcs[j], BucketOf(q, at, evs));
      m.Some? && m'.Some? && m != m'
  {
    hide BucketOf, Percentiles.Value, Percentiles.Repeat;
    evs := TwoOnes(q, at);
    assert Adds(q.funcs[i]);
    if q.funcs[j].kind == Percentile {
      StoreCounted(q.funcs, j);
      Percentiles.RepeatingKeepsPercentiles([1.0, 1.0], StoreCount(q.funcs), q.funcs[j].percentile);
      Percentiles.ValueIsMonotone([1.0, 1.0], q.funcs[j].percentile, q.funcs[j].percentile);
    } else if q.funcs[j].kind == Min {
      assert Lowers(q.funcs[j]);
    } else if q.funcs[j].kind == Max {
      assert Raises(q.funcs[j]);
    }
  }

  // ----- the theorem

  /** Functions of one name have one kind, and percentiles of one name are the same up to the hundredth. */
  predicate NamesDistinguish(lib: Library, funcs: seq<AggFunc>)
    requires Reportable(funcs)
  {
    forall i, j :: 0 <= i < |funcs| && 0 <= j < |funcs| && Reports(funcs[i]) && Reports(funcs[j])
                   && MetricName(lib, funcs[i]) == MetricName(lib, funcs[j])
      ==> && funcs[i].kind == funcs[j].kind
          && (funcs[i].kind == Percentile
              ==> Percentiles.Clamped(funcs[i].percentile) == Percentiles.Clamped(funcs[j].percentile))
  }

  /** Functions of one kind read the same accumulators, whatever their fields. */
  lemma SameKindSameMetric(f: AggFunc, g: AggFunc, b: Bucket)
    requires f.percentile >= 0.0 && g.percentile >= 0.0 && Reports(f) && Reports(g) && f.kind == g.kind
    requires f.kind == Percentile ==> Percentiles.Clamped(f.percentile) == Percentiles.Clamped(g.percentile)
    ensures MetricOf(f, b) == MetricOf(g, b)
  {
    hide Percentiles.Value, Percentiles.Clamped;
    if f.kind == Percentile {
      Percentiles.PercentilesAgreeIff(f.percentile, g.percentile);
    }
  }

  lemma ClashIsSeen(lib: Library, q: Aggregate, at: Place, i: nat, j: nat) returns (evs: seq<Stamped>)
    requires Reportable(q.funcs) && i < |q.funcs| && j < |q.funcs| && Reports(q.funcs[i]) && Reports(q.funcs[j])
    requires MetricName(lib, q.funcs[i]) == MetricName(lib, q.funcs[j])
    requires q.funcs[i].kind == q.funcs[j].kind ==>
               && q.funcs[i].kind == Percentile
               && Percentiles.Clamped(q.funcs[i].percentile) != Percentiles.Clamped(q.funcs[j].percentile)
    ensures evs != [] && !AllRead(lib, q.funcs, BucketOf(q, at, evs))
  {
    hide BucketOf, Percentiles.Clamped, Percentiles.Value, MetricName, AllRead;
    if q.funcs[i].kind == q.funcs[j].kind {
      evs := PercentilesPart(q, at, i, j);
    } else if q.funcs[i].kind == Sum {
      evs := SumStandsOut(q, at, i, j);
    } else if q.funcs[j].kind == Sum {
      evs := SumStandsOut(q, at, j, i);
    } else {
      NameTellsKind(lib, q.funcs[i], q.funcs[j]);
    }
    ClashHides(lib, q.funcs, BucketOf(q, at, evs), i, j, MetricName(lib, q.funcs[i]));
  }

  lemma DistinguishedRead(lib: Library, funcs: seq<AggFunc>, b: Bucket)
    requires Reportable(funcs) && NamesDistinguish(lib, funcs)
    ensures AllRead(lib, funcs, b)
  {
    hide Percentiles.Clamped, Percentiles.Value, MetricName, AllRead;
    forall i: nat, j: nat, name: string |
      i < |funcs| && j < |funcs| && Puts(lib, funcs, b, i, name) && Puts(lib, funcs, b, j, name)
      ensures MetricOf(funcs[i], b) == MetricOf(funcs[j], b)
    {
      SameKindSameMetric(funcs[i], funcs[j], b);
    }
    NoClashReads(lib, funcs, b);
  }

  /** Every function's value can be read off the result on every non-empty stream exactly when functions of
      one name have one kind, and percentiles of one name are the same up to the hundredth. */
  lemma EveryMetricIsReadIff(lib: Library, q: Aggregate, at: Place)
    requires Reportable(q.funcs)
    ensures (forall evs: seq<Stamped> :: evs != [] ==> AllRead(lib, q.funcs, BucketOf(q, at, evs)))
       <==> NamesDistinguish(lib, q.funcs)
  {
    hide BucketOf, Percentiles.Clamped, MetricName, AllRead;
    if NamesDistinguish(lib, q.funcs) {
      forall evs: seq<Stamped> | evs != [] ensures AllRead(lib, q.funcs, BucketOf(q, at, evs)) {
        DistinguishedRead(lib, q.funcs, BucketOf(q, at, evs));
      }
    } else {
      var i, j :| 0 <= i < |q.funcs| && 0 <= j < |q.funcs| && Reports(q.funcs[i]) && Reports(q.funcs[j])
                  && MetricName(lib, q.funcs[i]) == MetricName(lib, q.funcs[j])
                  && !(&& q.funcs[i].kind == q.funcs[j].kind
                       && (q.funcs[i].kind == Percentile
                           ==> Percentiles.Clamped(q.funcs[i].percentile)
                               == Percentiles.Clamped(q.funcs[j].percentile)));
      var evs := ClashIsSeen(lib, q, at, i, j);
    }
  }
}
