/** The percentile of stored values: an exchange sort in place, then a position in the result. */
module Percentiles {

  function Insert(x: real, s: seq<real>): seq<real> {
    if s == [] || x <= s[0] then [x] + s else [s[0]] + Insert(x, s[1..])
  }

  /** The values in ascending order. */
  function Sort(values: seq<real>): (r: seq<real>)
    ensures |r| == |values|
  {
    if values == [] then [] else
      var rest := Sort(values[1..]);
      InsertLength(values[0], rest);
      Insert(values[0], rest)
  }

  lemma InsertLength(x: real, s: seq<real>)
    ensures |Insert(x, s)| == |s| + 1
  {
  }

  ghost predicate Ascending(s: seq<real>) {
    forall i, j :: 0 <= i < j < |s| ==> s[i] <= s[j]
  }

  lemma AscendingCons(x: real, s: seq<real>)
    requires Ascending(s) && (s != [] ==> x <= s[0])
    ensures Ascending([x] + s)
  {
  }

  lemma {:induction false} InsertKeepsOrder(x: real, s: seq<real>)
    requires Ascending(s)
    ensures Ascending(Insert(x, s)) && Insert(x, s)[0] == (if s == [] || x <= s[0] then x else s[0])
  {
    if s == [] || x <= s[0] {
      AscendingCons(x, s);
    } else {
      InsertKeepsOrder(x, s[1..]);
      AscendingCons(s[0], Insert(x, s[1..]));
    }
  }

  lemma {:induction false} InsertAddsOne(x: real, s: seq<real>)
    ensures multiset(Insert(x, s)) == multiset(s) + multiset{x}
  {
    if s != [] && x > s[0] {
      InsertAddsOne(x, s[1..]);
      assert s == [s[0]] + s[1..];
    }
  }

  lemma {:induction false} SortSorts(values: seq<real>)
    ensures Ascending(Sort(values)) && multiset(Sort(values)) == multiset(values)
  {
    if values != [] {
      SortSorts(values[1..]);
      InsertKeepsOrder(values[0], Sort(values[1..]));
      InsertAddsOne(values[0], Sort(values[1..]));
      assert values == [values[0]] + values[1..];
    }
  }

  lemma HeadIsLeast(s: seq<real>, x: real)
    requires Ascending(s) && x in multiset(s)
    ensures s != [] && s[0] <= x
  {
    var i :| 0 <= i < |s| && s[i] == x;
  }

  lemma TailOf(s: seq<real>)
    requires s != [] && Ascending(s)
    ensures Ascending(s[1..]) && multiset(s[1..]) == multiset(s) - multiset{s[0]}
  {
    assert s == [s[0]] + s[1..];
  }

  lemma Rebuild(a: seq<real>, b: seq<real>)
    requires a != [] && b != [] && a[0] == b[0] && a[1..] == b[1..]
    ensures a == b
  {
    assert a == [a[0]] + a[1..] && b == [b[0]] + b[1..];
  }

  /** An ascending arrangement of given values is unique. */
  lemma {:induction false} AscendingIsUnique(a: seq<real>, b: seq<real>)
    requires Ascending(a) && Ascending(b) && multiset(a) == multiset(b)
    ensures a == b
  {
    if a == [] {
      assert |b| == |multiset(b)| == 0;
    } else {
      assert a[0] in multiset(b);
      HeadIsLeast(b, a[0]);
      assert b[0] in multiset(a);
      HeadIsLeast(a, b[0]);
      TailOf(a);
      TailOf(b);
      AscendingIsUnique(a[1..], b[1..]);
      Rebuild(a, b);
    }
  }

  /** The first `j` positions are final, and position `j` holds the least of those from `j` to `k`. */
  ghost predicate Selected(s: seq<real>, j: nat, k: nat) {
    && j <= k <= |s|
    && (forall x, y :: 0 <= x < j && x < y < |s| ==> s[x] <= s[y])
    && (forall y :: j < y < k ==> s[j] <= s[y])
  }

  lemma SwapSelects(s: seq<real>, j: nat, k: nat)
    requires Selected(s, j, k) && j < k < |s| && s[j] > s[k]
    ensures var t := s[j := s[k]][k := s[j]]; Selected(t, j, k + 1) && multiset(t) == multiset(s)
  {
  }

  method ExchangeSort(values: array<real>)
    modifies values
    ensures values[..] == Sort(old(values[..]))
  {
    var size := values.Length;
    ghost var unsorted := values[..];
    var j := 0;
    while j < size - 1
      invariant 0 <= j <= size
      invariant Selected(values[..], j, j) && multiset(values[..]) == multiset(unsorted)
    {
      SelectLeast(values, j);
      j := j + 1;
    }
    SortSorts(unsorted);
    AscendingIsUnique(values[..], Sort(unsorted));
  }

  /** The inner loop: exchanges until position `j` holds the least of what follows. */
  method SelectLeast(values: array<real>, j: nat)
    requires j < values.Length && Selected(values[..], j, j)
    modifies values
    ensures Selected(values[..], j, values.Length) && multiset(values[..]) == multiset(old(values[..]))
  {
    ghost var unsorted := values[..];
    var k := j + 1;
    while k < values.Length
      invariant j < k <= values.Length
      invariant Selected(values[..], j, k) && multiset(values[..]) == multiset(unsorted)
    {
      if values[j] > values[k] {
        ghost var s := values[..];
        SwapSelects(s, j, k);
        values[j], values[k] := values[k], values[j];
        assert values[..] == s[j := s[k]][k := s[j]];
      }
      k := k + 1;
    }
  }

  // ----- the position of the percentile

  function Index(p: real, size: nat): (idx: nat)
    requires size > 0 && p >= 0.0
    ensures idx < size
  {
    var idx := (p / 100.0 * (size as real)).Floor;
    if idx >= size then size - 1 else idx
  }

  function Value(values: seq<real>, p: real): real
    requires values != [] && p >= 0.0
  {
    Sort(values)[Index(p, |values|)]
  }

  /** How many values are below `v`, or at most `v`. */
  function CountBelow(values: seq<real>, v: real, orEqual: bool): nat {
    if values == [] then 0
    else CountBelow(values[1..], v, orEqual) + if values[0] < v || (orEqual && values[0] == v) then 1 else 0
  }

  /** `v` is the value with position `idx` in ascending order: at most `idx` values are smaller, and
      at least `idx + 1` are not larger. */
  ghost predicate AtRank(values: seq<real>, idx: nat, v: real) {
    CountBelow(values, v, false) <= idx < CountBelow(values, v, true)
  }

  lemma {:induction false} CountInsert(x: real, s: seq<real>, v: real, orEqual: bool)
    ensures CountBelow(Insert(x, s), v, orEqual)
         == CountBelow(s, v, orEqual) + if x < v || (orEqual && x == v) then 1 else 0
  {
    if s != [] && x > s[0] {
      CountInsert(x, s[1..], v, orEqual);
    }
  }

  lemma {:induction false} CountSort(values: seq<real>, v: real, orEqual: bool)
    ensures CountBelow(Sort(values), v, orEqual) == CountBelow(values, v, orEqual)
  {
    if values != [] {
      CountSort(values[1..], v, orEqual);
      CountInsert(values[0], Sort(values[1..]), v, orEqual);
    }
  }

  /** In an ascending list the values below `s[idx]` are all in front of it. */
  lemma {:induction false} CountAscending(s: seq<real>, idx: nat, v: real)
    requires Ascending(s) && idx < |s| && s[idx] == v
    ensures AtRank(s, idx, v)
  {
    if idx > 0 {
      CountAscending(s[1..], idx - 1, v);
    } else {
      NoneBelow(s, v);
    }
  }

  lemma {:induction false} NoneBelow(s: seq<real>, v: real)
    requires forall i :: 0 <= i < |s| ==> s[i] >= v
    ensures CountBelow(s, v, false) == 0
  {
    if s != [] {
      NoneBelow(s[1..], v);
    }
  }

  lemma {:induction false} CountMonotone(values: seq<real>, v: real, w: real)
    requires v < w
    ensures CountBelow(values, v, true) <= CountBelow(values, w, false)
  {
    if values != [] {
      CountMonotone(values[1..], v, w);
    }
  }

  /** The percentile is the one value at its rank among the values as they were stored. */
  lemma ValueIsTheRank(values: seq<real>, p: real, v: real)
    requires values != [] && p >= 0.0
    ensures AtRank(values, Index(p, |values|), v) <==> v == Value(values, p)
  {
    var idx, u := Index(p, |values|), Value(values, p);
    SortSorts(values);
    CountAscending(Sort(values), idx, u);
    CountSort(values, u, false);
    CountSort(values, u, true);
    if AtRank(values, idx, v) && v != u {
      if v < u { CountMonotone(values, v, u); } else { CountMonotone(values, u, v); }
    }
  }

  lemma RealMulMonotone(a: real, b: real, c: real)
    requires a <= b && c >= 0.0
    ensures a * c <= b * c
  {
    assert (b - a) * c >= 0.0;
  }

  lemma IndexIsMonotone(p: real, p': real, n: nat)
    requires n > 0 && 0.0 <= p <= p'
    ensures Index(p, n) <= Index(p', n)
  {
    RealMulMonotone(p / 100.0, p' / 100.0, n as real);
    FloorMonotone(p / 100.0 * (n as real), p' / 100.0 * (n as real));
  }

  lemma FloorMonotone(x: real, y: real)
    requires x <= y
    ensures x.Floor <= y.Floor
  {
  }

  /** Larger percentiles are not smaller values, and all lie among the values. */
  lemma ValueIsMonotone(values: seq<real>, p: real, p': real)
    requires values != [] && 0.0 <= p <= p'
    ensures Value(values, p) <= Value(values, p') && Value(values, p) in values
  {
    IndexIsMonotone(p, p', |values|);
    SortSorts(values);
    assert Value(values, p) in multiset(Sort(values));
  }

  // ----- which percentiles are the same

  /** From the hundredth on every percentile is the greatest value. */
  function Clamped(p: real): real {
    if p < 100.0 then p else 100.0
  }

  /** The values 0, 1, ..., n - 1. */
  function Ramp(n: nat): (r: seq<real>)
    ensures |r| == n && forall i :: 0 <= i < n ==> r[i] == i as real
  {
    seq(n, i requires 0 <= i < n => i as real)
  }

  lemma RampValue(n: nat, p: real)
    requires n > 0 && p >= 0.0
    ensures Value(Ramp(n), p) == Index(p, n) as real
  {
    SortSorts(Ramp(n));
    AscendingIsUnique(Sort(Ramp(n)), Ramp(n));
  }

  lemma WholePart(p: real, n: nat)
    requires p >= 100.0
    ensures (p / 100.0 * (n as real)).Floor >= n
  {
    RealMulMonotone(1.0, p / 100.0, n as real);
    FloorMonotone(n as real, p / 100.0 * (n as real));
  }

  lemma SameIndex(p: real, p': real, n: nat)
    requires n > 0 && p >= 0.0 && p' >= 0.0 && Clamped(p) == Clamped(p')
    ensures Index(p, n) == Index(p', n)
  {
    if p >= 100.0 {
      WholePart(p, n);
      WholePart(p', n);
    }
  }

  lemma EnoughValues(gap: real) returns (n: nat)
    requires gap > 0.0
    ensures n > 0 && gap / 100.0 * (n as real) >= 2.0
  {
    n := (200.0 / gap).Floor + 1;
    assert n as real >= 200.0 / gap;
    RealMulMonotone(200.0 / gap, n as real, gap / 100.0);
    assert 200.0 / gap * (gap / 100.0) == 2.0;
  }

  lemma SpreadOut(a: real, b: real, n: real)
    ensures (b - a) / 100.0 * n == b / 100.0 * n - a / 100.0 * n
  {
  }

  lemma IndicesPart(p: real, p': real) returns (n: nat)
    requires 0.0 <= p < 100.0 && p < p'
    ensures n > 0 && Index(p, n) < Index(p', n)
  {
    var c := Clamped(p');
    n := EnoughValues(c - p);
    var x, y := p / 100.0 * (n as real), c / 100.0 * (n as real);
    SpreadOut(p, c, n as real);
    assert x + 2.0 <= y;
    RealMulMonotone(c / 100.0, 1.0, n as real);
    FloorMonotone(x + 2.0, y);
    if p' >= 100.0 {
      WholePart(p', n);
    }
  }

  /** Otherwise some ramp tells them apart. */
  lemma RampTellsApart(p: real, p': real) returns (n: nat)
    requires p >= 0.0 && p' >= 0.0 && Clamped(p) != Clamped(p')
    ensures n > 0 && Value(Ramp(n), p) != Value(Ramp(n), p')
  {
    if p < p' {
      n := IndicesPart(p, p');
    } else {
      n := IndicesPart(p', p);
    }
    RampValue(n, p);
    RampValue(n, p');
  }

  /** Two percentiles have the same value of all values exactly when they are the same up to the hundredth. */
  lemma PercentilesAgreeIff(p: real, p': real)
    requires p >= 0.0 && p' >= 0.0
    ensures (forall values: seq<real> :: values != [] ==> Value(values, p) == Value(values, p'))
       <==> Clamped(p) == Clamped(p')
  {
    if Clamped(p) == Clamped(p') {
      forall values: seq<real> | values != [] ensures Value(values, p) == Value(values, p') {
        SameIndex(p, p', |values|);
      }
    } else {
      var n := RampTellsApart(p, p');
    }
  }

  // ----- several percentiles of one field store every value several times

  function Times(v: real, k: nat): (r: seq<real>)
    ensures |r| == k
  {
    seq(k, _ => v)
  }

  function Repeat(values: seq<real>, k: nat): seq<real> {
    if values == [] then [] else Repeat(values[..|values| - 1], k) + Times(values[|values| - 1], k)
  }

  lemma {:induction false} CountAppend(a: seq<real>, b: seq<real>, v: real, orEqual: bool)
    ensures CountBelow(a + b, v, orEqual) == CountBelow(a, v, orEqual) + CountBelow(b, v, orEqual)
  {
    if a == [] {
      assert a + b == b;
    } else {
      assert (a + b)[1..] == a[1..] + b;
      CountAppend(a[1..], b, v, orEqual);
    }
  }

  lemma {:induction false} CountTimes(x: real, k: nat, v: real, orEqual: bool)
    ensures CountBelow(Times(x, k), v, orEqual) == if x < v || (orEqual && x == v) then k else 0
  {
    if k > 0 {
      assert Times(x, k)[1..] == Times(x, k - 1);
      CountTimes(x, k - 1, v, orEqual);
    }
  }

  lemma {:induction false} CountRepeat(values: seq<real>, k: nat, v: real, orEqual: bool)
    ensures |Repeat(values, k)| == k * |values|
    ensures CountBelow(Repeat(values, k), v, orEqual) == k * CountBelow(values, v, orEqual)
  {
    if values != [] {
      var init, x := values[..|values| - 1], values[|values| - 1];
      CountRepeat(init, k, v, orEqual);
      CountTimes(x, k, v, orEqual);
      CountAppend(Repeat(init, k), Times(x, k), v, orEqual);
      assert values == init + [x];
      CountAppend(init, [x], v, orEqual);
      Distribute(k, CountBelow(init, v, orEqual));
      Distribute(k, |init|);
    }
  }

  lemma Distribute(k: nat, c: nat)
    ensures k * (c + 1) == k * c + k
  {
  }

  lemma MulMonotone(k: nat, a: nat, b: nat)
    requires a <= b
    ensures k * a <= k * b
  {
  }

  lemma RealMulPositive(k: nat, a: real, b: real)
    requires k > 0
    ensures a <= b ==> (k as real) * a <= (k as real) * b
    ensures a < b ==> (k as real) * a < (k as real) * b
  {
    assert (k as real) * (b - a) == (k as real) * b - (k as real) * a;
  }

  lemma FloorBetween(y: real, a: int, b: int)
    requires a as real <= y < b as real
    ensures a <= y.Floor < b
  {
  }

  lemma FloorBounds(x: real)
    ensures x.Floor as real <= x < (x.Floor + 1) as real
  {
  }

  lemma CastMul(k: nat, f: int, m: int)
    requires m == k * f
    ensures (k as real) * (f as real) == m as real
  {
  }

  lemma ScaledBetween(x: real, k: nat, f: int, g: int, low: int, high: int)
    requires k > 0 && f as real <= x < g as real && low == k * f && high == k * g
    ensures low as real <= (k as real) * x < high as real
  {
    CastMul(k, f, low);
    CastMul(k, g, high);
    RealMulPositive(k, f as real, x);
    RealMulPositive(k, x, g as real);
  }

  lemma ScaledFloor(x: real, k: nat)
    requires k > 0 && x >= 0.0
    ensures k * x.Floor <= ((k as real) * x).Floor < k * x.Floor + k
  {
    var f := x.Floor;
    FloorBounds(x);
    ScaledBetween(x, k, f, f + 1, k * f, k * (f + 1));
    FloorBetween((k as real) * x, k * f, k * (f + 1));
    Distribute(k, f);
  }

  lemma ScaledIndex(p: real, n: nat, k: nat)
    requires n > 0 && k > 0 && p >= 0.0
    ensures k * n > 0 && k * Index(p, n) <= Index(p, k * n) < k * Index(p, n) + k
  {
    var x := p / 100.0 * (n as real);
    assert (k * n) as real == (k as real) * (n as real);
    assert p / 100.0 * ((k * n) as real) == (k as real) * x;
    ScaledFloor(x, k);
    var f, g := x.Floor, ((k as real) * x).Floor;
    if f >= n {
      MulMonotone(k, n, f);
      Distribute(k, n - 1);
    } else {
      MulMonotone(k, f + 1, n);
      Distribute(k, f);
    }
  }

  /** Storing every value `k` times does not change any percentile. */
  lemma RepeatingKeepsPercentiles(values: seq<real>, k: nat, p: real)
    requires values != [] && k > 0 && p >= 0.0
    ensures Repeat(values, k) != [] && Value(Repeat(values, k), p) == Value(values, p)
  {
    var v, n := Value(values, p), |values|;
    CountRepeat(values, k, v, false);
    CountRepeat(values, k, v, true);
    ScaledIndex(p, n, k);
    ValueIsTheRank(values, p, v);
    var low, high, idx, idx' := CountBelow(values, v, false), CountBelow(values, v, true), Index(p, n), Index(p, k * n);
    MulMonotone(k, low, idx);
    MulMonotone(k, idx + 1, high);
    Distribute(k, idx);
    ValueIsTheRank(Repeat(values, k), p, v);
  }
}
