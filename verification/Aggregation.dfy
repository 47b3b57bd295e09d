/** Aggregation queries: bucket contents, how one event changes a bucket, and what is reported. */
module Aggregation {
  import opened Values
  import opened FilterEngine
  import opened Text

  const NO_END: nat := U64 - 1

  datatype AggKind = Count | Sum | Avg | Min | Max | Percentile | Distinct

  /** `field` is absent for count(); `percentile` is used by percentile() only. */
  datatype AggFunc = AggFunc(kind: AggKind, field: Option<string>, percentile: real)

  datatype Window = NoWindow | Tumbling(sizeMs: nat) | Sliding(sizeMs: nat, slideMs: nat) | Session(timeoutMs: nat)

  datatype Aggregate = Aggregate(funcs: seq<AggFunc>, groupBy: seq<string>, filter: Option<FilterNode>, window: Window)

  /** The C library as a parameter: PCRE2, and printf's renderings of a double with six decimals and
      with none. */
  datatype Library = Library(regex: RegexEngine, format6: real -> string, format0: real -> string)

  /** `min` and `max` are `None` while they hold the initial infinities. */
  datatype Bucket = Bucket(
    keys: seq<string>,
    count: nat,
    sum: real,
    sumSquares: real,
    min: Option<real>,
    max: Option<real>,
    distinct: seq<real>,
    distinctCount: nat,
    percentiles: seq<real>,
    start: nat,
    end: nat,
    last: nat)

  function FreshBucket(keys: seq<string>, start: nat, end: nat): Bucket {
    Bucket(keys, 0, 0.0, 0.0, None, None, [], 0, [], start, end, start)
  }

  // ----- reading event data

  predicate NotDot(c: char) {
    c != '.'
  }

  /** A field by path: the whole path as a key first, then nested along its first dot. */
  function GetPath(obj: Json, path: string): Option<Json>
    decreases |path|
  {
    if !obj.JObject? then None
    else if path in obj.fields then Some(obj.fields[path])
    else
      var dot := Span(path, NotDot);
      if dot == |path| || path[..dot] !in obj.fields then None
      else GetPath(obj.fields[path[..dot]], path[dot + 1..])
  }

  function NumericValue(data: Option<Json>, field: string): real {
    if data == None then 0.0
    else match GetPath(data.value, field)
      case Some(JInt(i)) => i as real
      case Some(JReal(r)) => r
      case _ => 0.0
  }

  function KeyText(lib: Library, value: Option<Json>): string {
    match value
    case Some(JString(s)) => s
    case Some(JInt(i)) => IntText(i)
    case Some(JReal(r)) => lib.format6(r)
    case _ => "null"
  }

  /** An event without data has no keys, whatever the query groups by. */
  function GroupKeys(lib: Library, groupBy: seq<string>, data: Option<Json>): seq<string> {
    if data == None then []
    else seq(|groupBy|, i requires 0 <= i < |groupBy| => KeyText(lib, GetPath(data.value, groupBy[i])))
  }

  /** compare_group_keys(bucket, keys, |keys|) == 0: only the keys of the event are compared. */
  predicate SameGroup(bucketKeys: seq<string>, keys: seq<string>) {
    keys <= bucketKeys
  }

  // ----- one event into one bucket

  function LowerBound(bound: Option<real>, v: real): Option<real> {
    if bound == None || v < bound.value then Some(v) else bound
  }

  function UpperBound(bound: Option<real>, v: real): Option<real> {
    if bound == None || v > bound.value then Some(v) else bound
  }

  predicate Close(a: real, b: real) {
    -0.000000001 < a - b < 0.000000001
  }

  predicate Known(distinct: seq<real>, v: real) {
    exists i :: 0 <= i < |distinct| && Close(distinct[i], v)
  }

  function ApplyFunc(b: Bucket, f: AggFunc, data: Option<Json>): Bucket {
    if f.kind == Count || f.field == None then b
    else
      var v := NumericValue(data, f.field.value);
      match f.kind
      case Sum => AddValue(b, v)
      case Avg => AddValue(b, v)
      case Min => b.(min := LowerBound(b.min, v))
      case Max => b.(max := UpperBound(b.max, v))
      case Percentile => b.(percentiles := b.percentiles + [v])
      case Distinct =>
        if Known(b.distinct, v) then b
        else b.(distinct := b.distinct + [v], distinctCount := b.distinctCount + 1)
      case Count => b
  }

  /** sum() and avg() share one accumulator, and both move the extremes. */
  function AddValue(b: Bucket, v: real): Bucket {
    b.(sum := b.sum + v, sumSquares := b.sumSquares + v * v, min := LowerBound(b.min, v), max := UpperBound(b.max, v))
  }

  function ApplyFuncs(b: Bucket, funcs: seq<AggFunc>, data: Option<Json>): Bucket {
    if funcs == [] then b
    else ApplyFunc(ApplyFuncs(b, funcs[..|funcs| - 1], data), funcs[|funcs| - 1], data)
  }

  function Counted(b: Bucket, window: Window, t: nat): Bucket {
    b.(count := b.count + 1, last := if window.Session? && t > b.last then t else b.last)
  }

  /** The bucket after an event with effective time `t`. */
  function Updated(q: Aggregate, b: Bucket, data: Option<Json>, t: nat): Bucket {
    ApplyFuncs(Counted(b, q.window, t), q.funcs, data)
  }

  lemma {:induction false} ApplyFuncsKeeps(b: Bucket, funcs: seq<AggFunc>, data: Option<Json>)
    ensures var b' := ApplyFuncs(b, funcs, data);
            b'.keys == b.keys && b'.count == b.count && b'.start == b.start && b'.end == b.end && b'.last == b.last
  {
    if funcs != [] {
      ApplyFuncsKeeps(b, funcs[..|funcs| - 1], data);
    }
  }
}
