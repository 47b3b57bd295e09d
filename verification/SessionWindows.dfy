/** Session windows against their batch meaning: the partition of each group's events into maximal
    runs whose consecutive gaps are below the timeout. */
module SessionWindows {
  import opened Aggregation
  import opened AggregateRuns

  // ----- the gap partition

  function Gap(evs: seq<Stamped>, i: nat): int
    requires 0 < i < |evs|
  {
    (evs[i].1 as int) - (evs[i - 1].1 as int)
  }

  function GapRuns(evs: seq<Stamped>, timeout: nat): (runs: seq<seq<Stamped>>)
    ensures evs != [] ==> runs != []
  {
    if evs == [] then []
    else
      var n := |evs| - 1;
      var runs := GapRuns(evs[..n], timeout);
      if n > 0 && Gap(evs, n) < timeout then Extend(runs, evs[n]) else runs + [[evs[n]]]
  }

  function Extend(runs: seq<seq<Stamped>>, x: Stamped): (r: seq<seq<Stamped>>)
    requires runs != []
    ensures |r| == |runs|
  {
    var k := |runs| - 1;
    runs[k := runs[k] + [x]]
  }

  /** The runs cut the events into maximal pieces: the gaps inside a run are below the timeout, and
      the gap in front of it, if anything precedes it, is not. */
  ghost predicate IsGapPartition(evs: seq<Stamped>, runs: seq<seq<Stamped>>, timeout: nat) {
    if runs == [] then evs == []
    else
      var last := runs[|runs| - 1];
      var cut := |evs| - |last|;
      && last != [] && cut >= 0 && evs[cut..] == last
      && (forall i :: cut < i < |evs| ==> Gap(evs, i) < timeout)
      && (cut > 0 ==> Gap(evs, cut) >= timeout)
      && IsGapPartition(evs[..cut], runs[..|runs| - 1], timeout)
  }

  lemma GapsOfPrefix(evs: seq<Stamped>, m: nat)
    requires m <= |evs|
    ensures forall i :: 0 < i < m ==> Gap(evs[..m], i) == Gap(evs, i)
  {
  }

  lemma PartitionExtends(evs: seq<Stamped>, runs: seq<seq<Stamped>>, timeout: nat)
    requires |evs| > 1 && IsGapPartition(evs[..|evs| - 1], runs, timeout) && Gap(evs, |evs| - 1) < timeout
    ensures IsGapPartition(evs, Extend(runs, evs[|evs| - 1]), timeout)
  {
    var n, k := |evs| - 1, |runs| - 1;
    var init, extended := evs[..n], Extend(runs, evs[n]);
    var cut := n - |runs[k]|;
    GapsOfPrefix(evs, n);
    assert extended[k] == init[cut..] + [evs[n]] == evs[cut..];
    assert extended[..k] == runs[..k] && evs[..cut] == init[..cut];
  }

  lemma PartitionOpens(evs: seq<Stamped>, runs: seq<seq<Stamped>>, timeout: nat)
    requires evs != [] && IsGapPartition(evs[..|evs| - 1], runs, timeout)
    requires |evs| > 1 ==> Gap(evs, |evs| - 1) >= timeout
    ensures IsGapPartition(evs, runs + [[evs[|evs| - 1]]], timeout)
  {
    var n := |evs| - 1;
    var longer := runs + [[evs[n]]];
    assert longer[..|runs|] == runs && evs[n..] == [evs[n]];
  }

  lemma PartitionCloses(evs: seq<Stamped>, runs: seq<seq<Stamped>>, timeout: nat)
    requires runs != [] && IsGapPartition(evs, runs, timeout) && |runs[|runs| - 1]| == 1
    ensures evs != [] && var n, k := |evs| - 1, |runs| - 1;
            && runs[k] == [evs[n]] && (n > 0 ==> Gap(evs, n) >= timeout)
            && IsGapPartition(evs[..n], runs[..k], timeout)
  {
    hide Gap;
    var last, cut := runs[|runs| - 1], |evs| - |runs[|runs| - 1]|;
    assert evs[cut..] == last && cut == |evs| - 1;
    OneLeft(evs, last);
  }

  lemma OneLeft(evs: seq<Stamped>, last: seq<Stamped>)
    requires evs != [] && |last| == 1 && evs[|evs| - 1..] == last
    ensures last == [evs[|evs| - 1]]
  {
    assert evs[|evs| - 1..][0] == evs[|evs| - 1];
  }

  lemma PartitionShrinks(evs: seq<Stamped>, runs: seq<seq<Stamped>>, timeout: nat)
    requires runs != [] && IsGapPartition(evs, runs, timeout) && |runs[|runs| - 1]| > 1
    ensures |evs| > 1 && var n, k := |evs| - 1, |runs| - 1;
            && Gap(evs, n) < timeout && runs[k][|runs[k]| - 1] == evs[n]
            && IsGapPartition(evs[..n], runs[k := runs[k][..|runs[k]| - 1]], timeout)
  {
    var n, k := |evs| - 1, |runs| - 1;
    var cut, init, shorter := |evs| - |runs[k]|, evs[..n], runs[k := runs[k][..|runs[k]| - 1]];
    GapsOfPrefix(evs, n);
    assert shorter[..k] == runs[..k] && init[..cut] == evs[..cut];
    assert init[cut..] == evs[cut..][..|runs[k]| - 1] == shorter[k];
  }

  lemma RestoreLast(runs: seq<seq<Stamped>>, x: Stamped)
    requires runs != [] && var last := runs[|runs| - 1]; last != [] && last[|last| - 1] == x
    ensures var k := |runs| - 1; Extend(runs[k := runs[k][..|runs[k]| - 1]], x) == runs
  {
    var last := runs[|runs| - 1];
    assert last[..|last| - 1] + [x] == last;
  }

  lemma {:induction false} GapRunsPartitions(evs: seq<Stamped>, timeout: nat)
    ensures IsGapPartition(evs, GapRuns(evs, timeout), timeout)
  {
    if evs != [] {
      var n := |evs| - 1;
      GapRunsPartitions(evs[..n], timeout);
      if n > 0 && Gap(evs, n) < timeout {
        PartitionExtends(evs, GapRuns(evs[..n], timeout), timeout);
      } else {
        PartitionOpens(evs, GapRuns(evs[..n], timeout), timeout);
      }
    }
  }

  lemma {:induction false} GapRunsIsThePartition(evs: seq<Stamped>, runs: seq<seq<Stamped>>, timeout: nat)
    requires IsGapPartition(evs, runs, timeout)
    ensures runs == GapRuns(evs, timeout)
    decreases |evs|
  {
    if evs != [] {
      var k := |runs| - 1;
      if |runs[k]| == 1 {
        PartitionCloses(evs, runs, timeout);
        GapRunsIsThePartition(evs[..|evs| - 1], runs[..k], timeout);
      } else {
        PartitionShrinks(evs, runs, timeout);
        var shorter := runs[k := runs[k][..|runs[k]| - 1]];
        GapRunsIsThePartition(evs[..|evs| - 1], shorter, timeout);
        RestoreLast(runs, evs[|evs| - 1]);
      }
    }
  }

  /** The gap partition exists and is unique: `GapRuns` computes it. */
  lemma GapPartitionIsUnique(evs: seq<Stamped>, runs: seq<seq<Stamped>>, timeout: nat)
    ensures IsGapPartition(evs, runs, timeout) <==> runs == GapRuns(evs, timeout)
  {
    GapRunsPartitions(evs, timeout);
    if IsGapPartition(evs, runs, timeout) {
      GapRunsIsThePartition(evs, runs, timeout);
    }
  }

  // ----- the bucket of a run

  ghost predicate Sorted(evs: seq<Stamped>) {
    forall i, j :: 0 <= i < j < |evs| ==> evs[i].1 <= evs[j].1
  }

  function EndTime(evs: seq<Stamped>): nat {
    if evs == [] then 0 else evs[|evs| - 1].1
  }

  /** The bucket a query builds from one run of a group's events. */
  function SessionBucket(q: Aggregate, keys: seq<string>, run: seq<Stamped>): Bucket
    requires run != []
  {
    Folded(q, FreshBucket(keys, run[0].1, NO_END), run)
  }

  /** Its first time, last time and count are those of the run. */
  lemma SessionBucketFields(q: Aggregate, keys: seq<string>, run: seq<Stamped>)
    requires q.window.Session? && run != [] && Sorted(run)
    ensures var b := SessionBucket(q, keys, run);
            b.keys == keys && b.end == NO_END && b.count == |run| && b.start == run[0].1 && b.last == EndTime(run)
  {
    FoldedKeeps(q, FreshBucket(keys, run[0].1, NO_END), run);
    FoldedLast(q, FreshBucket(keys, run[0].1, NO_END), run);
  }

  lemma {:induction false} FoldedLast(q: Aggregate, b: Bucket, run: seq<Stamped>)
    requires q.window.Session? && Sorted(run) && (run != [] ==> b.last <= run[0].1)
    ensures Folded(q, b, run).last == if run == [] then b.last else EndTime(run)
  {
    if run != [] {
      var n := |run| - 1;
      FoldedLast(q, b, run[..n]);
      UpdatedKeeps(q, Folded(q, b, run[..n]), run[n].0.data, run[n].1);
    }
  }

  function SessionBuckets(q: Aggregate, keys: seq<string>, runs: seq<seq<Stamped>>): (r: seq<Bucket>)
    requires forall m :: 0 <= m < |runs| ==> runs[m] != []
    ensures |r| == |runs|
  {
    seq(|runs|, m requires 0 <= m < |runs| => SessionBucket(q, keys, runs[m]))
  }

  /** A run of sorted events: not empty, sorted, and over by `end`. */
  ghost predicate RunBy(run: seq<Stamped>, end: int) {
    run != [] && Sorted(run) && EndTime(run) <= end
  }

  /** Runs are non-empty and sorted when the events are; all but the last ended a timeout ago. */
  lemma {:induction false} GapRunsFacts(evs: seq<Stamped>, timeout: nat)
    requires Sorted(evs)
    ensures var runs := GapRuns(evs, timeout);
            && (forall m :: 0 <= m < |runs| - 1 ==> RunBy(runs[m], EndTime(evs) - timeout))
            && (evs != [] ==> RunBy(runs[|runs| - 1], EndTime(evs)) && EndTime(runs[|runs| - 1]) == EndTime(evs))
  {
    if evs != [] {
      var n := |evs| - 1;
      var init, before, runs := evs[..n], GapRuns(evs[..n], timeout), GapRuns(evs, timeout);
      GapRunsFacts(init, timeout);
      if n > 0 {
        assert EndTime(init) == evs[n - 1].1 <= EndTime(evs);
        forall m | 0 <= m < |runs| - 1 ensures RunBy(runs[m], EndTime(evs) - timeout) {
          assert runs[m] == before[m];
        }
        if Gap(evs, n) < timeout {
          SortedAppend(before[|before| - 1], evs[n]);
        }
      }
    }
  }

  lemma SortedAppend(run: seq<Stamped>, x: Stamped)
    requires Sorted(run) && EndTime(run) <= x.1
    ensures Sorted(run + [x]) && EndTime(run + [x]) == x.1
  {
  }
}
