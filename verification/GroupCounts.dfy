/** Events counted into the buckets of a group. */
module GroupCounts {
  import opened Aggregation
  import opened AggregateRuns

  lemma Removed(b: seq<Bucket>, i: nat)
    requires i < |b|
    ensures
      var rest := b[..i] + b[i + 1..];
      multiset(b) == multiset(rest) + multiset{b[i]} && Total(b) == Total(rest) + b[i].count
  {
    hide Total;
    var x := b[i];
    assert b == b[..i] + [x] + b[i + 1..];
    TotalAppend(b[..i], b[i + 1..]);
    TotalAppend(b[..i] + [x], b[i + 1..]);
    TotalAppend(b[..i], [x]);
    OfGroupOne(x, x.keys);
  }

  lemma SameRest(a: multiset<Bucket>, b: multiset<Bucket>, x: Bucket)
    requires a + multiset{x} == b + multiset{x}
    ensures a == b
  {
    assert a + multiset{x} - multiset{x} == a && b + multiset{x} - multiset{x} == b;
  }

  lemma {:induction false} TotalOfBag(a: seq<Bucket>, b: seq<Bucket>)
    requires multiset(a) == multiset(b)
    ensures Total(a) == Total(b)
  {
    if a == [] {
      assert |multiset(b)| == |b|;
    } else {
      var n := |a| - 1;
      Removed(a, n);
      assert a[..n] + a[n + 1..] == a[..n] && a[n] in multiset(b);
      var i :| 0 <= i < |b| && b[i] == a[n];
      Removed(b, i);
      SameRest(multiset(a[..n]), multiset(b[..i] + b[i + 1..]), a[n]);
      TotalOfBag(a[..n], b[..i] + b[i + 1..]);
    }
  }

  lemma SameTotals(a: seq<Bucket>, b: seq<Bucket>, c: seq<Bucket>, d: seq<Bucket>)
    requires multiset(a) + multiset(b) == multiset(c) + multiset(d)
    ensures Total(a) + Total(b) == Total(c) + Total(d)
  {
    hide Total;
    TotalAppend(a, b);
    TotalAppend(c, d);
    TotalOfBag(a + b, c + d);
  }

  lemma OfGroupOne(b: Bucket, keys: seq<string>)
    ensures OfGroup([b], keys) == if b.keys == keys then [b] else []
    ensures Total([b]) == b.count && Total([]) == 0
  {
  }

  lemma OneMoreInBag(a: seq<Bucket>, a': seq<Bucket>, b: Bucket, b': Bucket)
    requires multiset(a') + multiset{b} == multiset(a) + multiset{b'} && b'.count == b.count + 1
    ensures Total(a') == Total(a) + 1
  {
    hide Total;
    SameTotals(a', [b], a, [b']);
    OfGroupOne(b, b.keys);
    OfGroupOne(b', b'.keys);
  }

  /** A bucket replaced by one with one event more, and a bucket with one event added. */
  lemma ReplacedCounts(buckets: seq<Bucket>, i: nat, b: Bucket, keys: seq<string>)
    requires i < |buckets| && b.keys == buckets[i].keys && b.count == buckets[i].count + 1
    ensures Total(OfGroup(buckets[i := b], keys)) == Total(OfGroup(buckets, keys)) + if b.keys == keys then 1 else 0
  {
    hide Total, OfGroup;
    OfGroupUpdate(buckets, i, b, keys);
    if b.keys == keys {
      OneMoreInBag(OfGroup(buckets, keys), OfGroup(buckets[i := b], keys), buckets[i], b);
    }
  }

  lemma AppendedCounts(buckets: seq<Bucket>, b: Bucket, keys: seq<string>)
    requires b.count == 1
    ensures Total(OfGroup(buckets + [b], keys)) == Total(OfGroup(buckets, keys)) + if b.keys == keys then 1 else 0
  {
    hide Total, OfGroup;
    OfGroupAppend(buckets, [b], keys);
    OfGroupOne(b, keys);
    TotalAppend(OfGroup(buckets, keys), OfGroup([b], keys));
  }
}
