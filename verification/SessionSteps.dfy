/** What one arrival and one flush do to the live sessions of a group, and how the buckets a group has
    had compare with the sessions of its events. */
module SessionSteps {
  import opened Values
  import opened Aggregation
  import opened AggregateSpec
  import opened AggregateRuns
  import opened SessionWindows

  lemma CountConcat(a: seq<Bucket>, b: seq<Bucket>, x: Bucket)
    ensures multiset(a + b)[x] == multiset(a)[x] + multiset(b)[x]
  {
  }

  lemma CountLast(buckets: seq<Bucket>, x: Bucket)
    requires buckets != []
    ensures var n := |buckets| - 1; multiset(buckets)[x] == multiset(buckets[..n])[x] + multiset([buckets[n]])[x]
  {
    assert buckets == buckets[..|buckets| - 1] + [buckets[|buckets| - 1]];
  }

  /** A session tick either keeps a bucket or emits it. */
  lemma SessionTick(w: Window, b: Bucket, now: nat, x: Bucket)
    requires w.Session?
    ensures
      var tick := TickBucket(w, b, now);
      multiset(ToSeq(tick.emit))[x] + multiset(ToSeq(tick.keep))[x] == multiset([b])[x]
  {
  }

  /** A session flush moves buckets, it neither makes nor loses any. */
  lemma {:induction false} FlushMoves(w: Window, buckets: seq<Bucket>, now: nat, x: Bucket)
    requires w.Session?
    ensures multiset(Emits(w, buckets, now))[x] + multiset(Kept(w, buckets, now))[x] == multiset(buckets)[x]
  {
    if buckets != [] {
      var init, b := buckets[..|buckets| - 1], buckets[|buckets| - 1];
      var tick := TickBucket(w, b, now);
      FlushMoves(w, init, now, x);
      SessionTick(w, b, now, x);
      CountConcat(ToSeq(tick.emit), Emits(w, init, now), x);
      CountConcat(Kept(w, init, now), ToSeq(tick.keep), x);
      CountLast(buckets, x);
    }
  }

  lemma {:induction false} OfGroupCount(buckets: seq<Bucket>, keys: seq<string>, b: Bucket)
    ensures multiset(OfGroup(buckets, keys))[b] == if b.keys == keys then multiset(buckets)[b] else 0
  {
    if buckets != [] {
      var n := |buckets| - 1;
      OfGroupCount(buckets[..n], keys, b);
      CountLast(buckets, b);
    }
  }

  lemma FlushMovesBuckets(w: Window, buckets: seq<Bucket>, now: nat, keys: seq<string>)
    requires w.Session?
    ensures multiset(OfGroup(Emits(w, buckets, now), keys)) + multiset(OfGroup(Kept(w, buckets, now), keys))
         == multiset(OfGroup(buckets, keys))
  {
    forall b: Bucket
      ensures multiset(OfGroup(Emits(w, buckets, now), keys))[b] + multiset(OfGroup(Kept(w, buckets, now), keys))[b]
           == multiset(OfGroup(buckets, keys))[b]
    {
      OfGroupCount(Emits(w, buckets, now), keys, b);
      OfGroupCount(Kept(w, buckets, now), keys, b);
      OfGroupCount(buckets, keys, b);
      FlushMoves(w, buckets, now, b);
    }
  }

  lemma {:induction false} FlushMembers(w: Window, buckets: seq<Bucket>, now: nat, b: Bucket)
    requires w.Session?
    ensures b in Emits(w, buckets, now) ==> b in buckets && SubU64(now, b.last) >= TimeoutNs(w)
    ensures b in Kept(w, buckets, now) ==> b in buckets
  {
    if buckets != [] {
      FlushMembers(w, buckets[..|buckets| - 1], now, b);
    }
  }

  ghost function Sessions(q: Aggregate, keys: seq<string>, evs: seq<Stamped>): seq<Bucket>
    requires q.window.Session? && Sorted(evs)
  {
    var runs := GapRuns(evs, TimeoutNs(q.window));
    GapRunsNonEmpty(evs, TimeoutNs(q.window));
    SessionBuckets(q, keys, runs)
  }

  lemma GapRunsNonEmpty(evs: seq<Stamped>, timeout: nat)
    requires Sorted(evs)
    ensures forall m :: 0 <= m < |GapRuns(evs, timeout)| ==> GapRuns(evs, timeout)[m] != []
  {
    GapRunsFacts(evs, timeout);
    var runs := GapRuns(evs, timeout);
    forall m | 0 <= m < |runs| ensures runs[m] != [] {
      if m < |runs| - 1 { assert RunBy(runs[m], EndTime(evs) - timeout); }
    }
  }

  /** Emitted and live sessions of a group are together the buckets of its gap partition. */
  ghost predicate Partitioned(q: Aggregate, st: AggState, keys: seq<string>, evs: seq<Stamped>)
    requires q.window.Session? && Sorted(evs)
  {
    multiset(OfGroup(st.emitted, keys)) + multiset(OfGroup(st.buckets, keys)) == multiset(Sessions(q, keys, evs))
  }

  /** Only the last session of a group can still be open when the next event comes. */
  lemma SessionTimes(q: Aggregate, keys: seq<string>, evs: seq<Stamped>, m: nat)
    requires q.window.Session? && Sorted(evs) && m < |Sessions(q, keys, evs)|
    ensures var s := Sessions(q, keys, evs);
            && s[m].keys == keys && s[m].end == NO_END
            && (m < |s| - 1 ==> s[m].last + TimeoutNs(q.window) <= EndTime(evs))
            && (m == |s| - 1 ==> s[m].last == EndTime(evs))
  {
    var timeout := TimeoutNs(q.window);
    var runs := GapRuns(evs, timeout);
    GapRunsFacts(evs, timeout);
    assert m < |runs| - 1 ==> RunBy(runs[m], EndTime(evs) - timeout);
    SessionBucketFields(q, keys, runs[m]);
  }

  /** The next event either extends the group's last session or opens a new one. */
  lemma SessionsAfter(q: Aggregate, keys: seq<string>, evs: seq<Stamped>, x: Stamped)
    requires q.window.Session? && Sorted(evs) && EndTime(evs) <= x.1
    ensures Sorted(evs + [x])
    ensures var s, s' := Sessions(q, keys, evs), Sessions(q, keys, evs + [x]);
            if evs != [] && x.1 - EndTime(evs) < TimeoutNs(q.window)
            then s != [] && s' == s[|s| - 1 := Updated(q, s[|s| - 1], x.0.data, x.1)]
            else s' == s + [Updated(q, FreshBucket(keys, x.1, NO_END), x.0.data, x.1)]
  {
    SortedAppend(evs, x);
    var timeout := TimeoutNs(q.window);
    var all, runs := evs + [x], GapRuns(evs, timeout);
    GapRunsNonEmpty(evs, timeout);
    GapRunsNonEmpty(all, timeout);
    assert all[..|all| - 1] == evs;
    if evs != [] && x.1 - EndTime(evs) < timeout {
      assert Gap(all, |evs|) < timeout;
      ExtendedBuckets(q, keys, runs, x);
    } else {
      OpenedBuckets(q, keys, runs, x);
    }
  }

  lemma ExtendedBuckets(q: Aggregate, keys: seq<string>, runs: seq<seq<Stamped>>, x: Stamped)
    requires runs != [] && (forall m :: 0 <= m < |runs| ==> runs[m] != [])
    requires forall m :: 0 <= m < |runs| ==> Extend(runs, x)[m] != []
    ensures var s, k := SessionBuckets(q, keys, runs), |runs| - 1;
            SessionBuckets(q, keys, Extend(runs, x)) == s[k := Updated(q, s[k], x.0.data, x.1)]
  {
    var k := |runs| - 1;
    FoldedAppend(q, FreshBucket(keys, runs[k][0].1, NO_END), runs[k], x);
  }

  lemma OpenedBuckets(q: Aggregate, keys: seq<string>, runs: seq<seq<Stamped>>, x: Stamped)
    requires forall m :: 0 <= m < |runs| ==> runs[m] != []
    requires forall m :: 0 <= m < |runs| + 1 ==> (runs + [[x]])[m] != []
    ensures SessionBuckets(q, keys, runs + [[x]])
         == SessionBuckets(q, keys, runs) + [Updated(q, FreshBucket(keys, x.1, NO_END), x.0.data, x.1)]
  {
    FoldedAppend(q, FreshBucket(keys, x.1, NO_END), [], x);
    assert [] + [x] == [x];
  }

  // ----- one arrival

  ghost function SessionFor(q: Aggregate, st: AggState, keys: seq<string>, t: nat): int
    requires q.window.Session?
  {
    FindNewest(st.buckets, IsOpenSession(keys, t, TimeoutNs(q.window)))
  }

  lemma SessionExecuted(lib: Library, q: Aggregate, st: AggState, e: Event, clock: nat)
    requires Runnable(q) && q.window.Session? && Passes(lib, q, e)
    ensures var t, keys := EffectiveTime(e, clock), GroupKeys(lib, q.groupBy, e.data);
            var i := SessionFor(q, st, keys, t);
            Executed(lib, q, st, e, clock) ==
              AggState(if i >= 0 then st.buckets[i := Updated(q, st.buckets[i], e.data, t)]
                       else st.buckets + [Updated(q, FreshBucket(keys, t, NO_END), e.data, t)],
                       st.emitted)
  {
    var t, keys := EffectiveTime(e, clock), GroupKeys(lib, q.groupBy, e.data);
    var pl := Placed(q.window, st.buckets, keys, t);
    assert pl.chosen == [pl.chosen[0]];
    assert UpdateEach(q, pl.buckets, [], e.data, t) == pl.buckets;
    var n, created := |st.buckets|, FreshBucket(keys, t, NO_END);
    assert (st.buckets + [created])[n := Updated(q, created, e.data, t)]
        == st.buckets + [Updated(q, created, e.data, t)];
  }

  /** Every live bucket: open-ended, not empty, last touched by now, with all keys or with none. */
  ghost predicate Basics(q: Aggregate, buckets: seq<Bucket>, clock: nat) {
    forall b :: b in buckets ==> Basic(q, b, clock)
  }

  predicate Basic(q: Aggregate, b: Bucket, clock: nat) {
    b.end == NO_END && b.count > 0 && b.start <= b.last <= clock && (b.keys == [] || |b.keys| == |q.groupBy|)
  }

  /** What is live of a group whose last event was at `end`: its last session as long as that is awake,
      and otherwise only sessions that timed out by then. */
  ghost predicate GroupLive(q: Aggregate, buckets: seq<Bucket>, keys: seq<string>, end: nat, awake: bool)
    requires q.window.Session?
  {
    && (forall k ::
          0 <= k < |buckets| && buckets[k].keys == keys && !TimedOut(q, buckets[k], end)
          ==> awake && buckets[k].last == end)
    && (forall j, k :: 0 <= j < k < |buckets| && buckets[j].keys == keys && buckets[k].keys == keys
          ==> TimedOut(q, buckets[j], end) || TimedOut(q, buckets[k], end))
    && (awake ==> exists k :: 0 <= k < |buckets| && buckets[k].keys == keys && buckets[k].last == end)
  }

  predicate TimedOut(q: Aggregate, b: Bucket, t: nat)
    requires q.window.Session?
  {
    b.last + TimeoutNs(q.window) <= t
  }

  /** The arrival, if it is put into a live session, is put into one of its own group. */
  ghost predicate Isolated(q: Aggregate, st: AggState, keys: seq<string>, t: nat)
    requires q.window.Session?
  {
    SessionFor(q, st, keys, t) >= 0 ==> st.buckets[SessionFor(q, st, keys, t)].keys == keys
  }

  /** An event finds a session exactly when it is in time for its group's last one and that is awake. */
  lemma FoundIff(q: Aggregate, st: AggState, keys: seq<string>, t: nat, end: nat, awake: bool, clock: nat)
    requires q.window.Session? && Basics(q, st.buckets, clock) && end <= t
    requires GroupLive(q, st.buckets, keys, end, awake) && Isolated(q, st, keys, t)
    ensures SessionFor(q, st, keys, t) >= 0 <==> awake && t - end < TimeoutNs(q.window)
    ensures SessionFor(q, st, keys, t) >= 0 ==> st.buckets[SessionFor(q, st, keys, t)].last == end
  {
    var i := SessionFor(q, st, keys, t);
    if i >= 0 {
      assert st.buckets[i] in st.buckets;
    }
    if awake && t - end < TimeoutNs(q.window) {
      var k :| 0 <= k < |st.buckets| && st.buckets[k].keys == keys && st.buckets[k].last == end;
      assert st.buckets[k] in st.buckets;
      assert IsOpenSession(keys, t, TimeoutNs(q.window))(st.buckets[k]);
    }
  }

  /** What an arrival leaves in the bucket list: a bucket replaced or one more at its end. */
  ghost function AfterArrival(q: Aggregate, st: AggState, keys: seq<string>, data: Option<Json>, t: nat): AggState
    requires q.window.Session?
  {
    var i := SessionFor(q, st, keys, t);
    AggState(if i >= 0 then st.buckets[i := Updated(q, st.buckets[i], data, t)]
             else st.buckets + [Updated(q, FreshBucket(keys, t, NO_END), data, t)],
             st.emitted)
  }

  /** The bucket that an arrival changed or made. */
  lemma Touched(q: Aggregate, st: AggState, keys: seq<string>, data: Option<Json>, t: nat) returns (i: nat)
    requires q.window.Session?
    ensures
      var st', found := AfterArrival(q, st, keys, data, t), SessionFor(q, st, keys, t);
      && i < |st'.buckets| && |st.buckets| <= |st'.buckets|
      && i == (if found >= 0 then found else |st.buckets|)
      && (forall k :: 0 <= k < |st'.buckets| && k != i ==> k < |st.buckets| && st'.buckets[k] == st.buckets[k])
      && st'.buckets[i].end == (if found >= 0 then st.buckets[i].end else NO_END)
      && st'.buckets[i].keys == (if found >= 0 then st.buckets[i].keys else keys)
      && st'.buckets[i].start == (if found >= 0 then st.buckets[i].start else t)
      && st'.buckets[i].count == (if found >= 0 then st.buckets[i].count else 0) + 1
      && st'.buckets[i].last == t
  {
    var found := SessionFor(q, st, keys, t);
    if found >= 0 {
      i := found;
      UpdatedKeeps(q, st.buckets[i], data, t);
    } else {
      i := |st.buckets|;
      UpdatedKeeps(q, FreshBucket(keys, t, NO_END), data, t);
    }
  }

  lemma ArrivalKeepsBasics(q: Aggregate, st: AggState, keys: seq<string>, data: Option<Json>, t: nat, clock: nat)
    requires q.window.Session? && Basics(q, st.buckets, clock) && clock <= t && (keys == [] || |keys| == |q.groupBy|)
    ensures Basics(q, AfterArrival(q, st, keys, data, t).buckets, t)
  {
    hide AfterArrival;
    var st' := AfterArrival(q, st, keys, data, t);
    var i := Touched(q, st, keys, data, t);
    forall b | b in st'.buckets ensures Basic(q, b, t) {
      var k :| 0 <= k < |st'.buckets| && st'.buckets[k] == b;
      assert k < |st.buckets| ==> st.buckets[k] in st.buckets && Basic(q, st.buckets[k], clock);
    }
  }

  lemma OnlyOneInTime(q: Aggregate, buckets: seq<Bucket>, keys: seq<string>, end: nat, awake: bool, i: nat, k: nat)
    requires q.window.Session? && GroupLive(q, buckets, keys, end, awake) && i < |buckets| && k < |buckets| && i != k
    requires buckets[i].keys == keys && buckets[k].keys == keys
    ensures TimedOut(q, buckets[i], end) || TimedOut(q, buckets[k], end)
  {
    if i < k {
      assert buckets[i].keys == keys && buckets[k].keys == keys;
    }
  }

  lemma OwnGroupLive(q: Aggregate, st: AggState, own: seq<string>, data: Option<Json>, t: nat, end: nat, awake: bool,
      clock: nat)
    requires q.window.Session? && Basics(q, st.buckets, clock) && Isolated(q, st, own, t) && end <= t
    requires GroupLive(q, st.buckets, own, end, awake)
    ensures GroupLive(q, AfterArrival(q, st, own, data, t).buckets, own, t, true)
  {
    hide AfterArrival;
    var st' := AfterArrival(q, st, own, data, t);
    var i := Touched(q, st, own, data, t);
    FoundIff(q, st, own, t, end, awake, clock);
    forall k | 0 <= k < |st'.buckets| && k != i && st'.buckets[k].keys == own
      ensures TimedOut(q, st'.buckets[k], t)
    {
      assert st.buckets[k] == st'.buckets[k];
      if SessionFor(q, st, own, t) >= 0 {
        OnlyOneInTime(q, st.buckets, own, end, awake, i, k);
      }
    }
  }

  lemma OtherGroupLive(q: Aggregate, st: AggState, own: seq<string>, data: Option<Json>, t: nat, keys: seq<string>,
      end: nat, awake: bool)
    requires q.window.Session? && Isolated(q, st, own, t) && own != keys && GroupLive(q, st.buckets, keys, end, awake)
    ensures GroupLive(q, AfterArrival(q, st, own, data, t).buckets, keys, end, awake)
  {
    hide AfterArrival;
    var st' := AfterArrival(q, st, own, data, t);
    var i := Touched(q, st, own, data, t);
    if awake {
      var k :| 0 <= k < |st.buckets| && st.buckets[k].keys == keys && st.buckets[k].last == end;
      assert k != i && st'.buckets[k] == st.buckets[k];
    }
  }

  // ----- one flush

  /** The flush callback's test. */
  predicate FoundTimedOut(w: Window, b: Bucket, now: nat)
    requires w.Session?
  {
    b.count > 0 && SubU64(now, b.last) >= TimeoutNs(w)
  }

  lemma KeptStep(w: Window, buckets: seq<Bucket>, now: nat)
    requires w.Session? && buckets != []
    ensures
      var n := |buckets| - 1;
      Kept(w, buckets, now) == Kept(w, buckets[..n], now) + if FoundTimedOut(w, buckets[n], now) then []
          else [buckets[n]]
  {
  }

  /** Where the buckets that stay stood before the flush. */
  ghost function Survivors(w: Window, buckets: seq<Bucket>, now: nat): (from: seq<nat>)
    requires w.Session?
    ensures forall k :: 0 <= k < |from| ==> from[k] < |buckets|
  {
    if buckets == [] then []
    else
      var n := |buckets| - 1;
      Survivors(w, buckets[..n], now) + if FoundTimedOut(w, buckets[n], now) then [] else [n]
  }

  /** The buckets that stay are those the flush does not find timed out, in their order. */
  lemma {:induction false} KeptFrom(w: Window, buckets: seq<Bucket>, now: nat) returns (from: seq<nat>)
    requires w.Session?
    ensures from == Survivors(w, buckets, now) && |from| == |Kept(w, buckets, now)|
    ensures forall k :: 0 <= k < |from| ==> Kept(w, buckets, now)[k] == buckets[from[k]]
    ensures forall j, k :: 0 <= j < k < |from| ==> from[j] < from[k]
  {
    from := Survivors(w, buckets, now);
    if buckets != [] {
      hide Kept, FoundTimedOut;
      KeptStep(w, buckets, now);
      var init := KeptFrom(w, buckets[..|buckets| - 1], now);
    }
  }

  lemma {:induction false} SurvivesIff(w: Window, buckets: seq<Bucket>, now: nat, i: nat)
    requires w.Session? && i < |buckets|
    ensures i in Survivors(w, buckets, now) <==> !FoundTimedOut(w, buckets[i], now)
  {
    hide FoundTimedOut;
    var n := |buckets| - 1;
    if i < n {
      SurvivesIff(w, buckets[..n], now, i);
      assert buckets[..n][i] == buckets[i];
    }
  }

  lemma FlushKeepsBasics(q: Aggregate, buckets: seq<Bucket>, now: nat, clock: nat)
    requires q.window.Session? && Basics(q, buckets, clock)
    ensures Basics(q, Kept(q.window, buckets, now), clock)
  {
    var from := KeptFrom(q.window, buckets, now);
    forall b | b in Kept(q.window, buckets, now) ensures Basic(q, b, clock) {
      var k :| 0 <= k < |from| && Kept(q.window, buckets, now)[k] == b;
      assert buckets[from[k]] in buckets;
    }
  }

  /** A flush sends the group's last session off exactly when it finds it timed out. */
  lemma FlushKeepsGroupLive(q: Aggregate, buckets: seq<Bucket>, now: nat, clock: nat, keys: seq<string>, end: nat,
      awake: bool)
    requires q.window.Session? && Basics(q, buckets, clock) && GroupLive(q, buckets, keys, end, awake)
    ensures GroupLive(q, Kept(q.window, buckets, now), keys, end, awake && SubU64(now, end) < TimeoutNs(q.window))
  {
    hide Kept;
    var kept := Kept(q.window, buckets, now);
    var from := KeptFrom(q.window, buckets, now);
    forall k | 0 <= k < |kept| && kept[k].keys == keys && !TimedOut(q, kept[k], end)
      ensures awake && kept[k].last == end && SubU64(now, end) < TimeoutNs(q.window)
    {
      SurvivesIff(q.window, buckets, now, from[k]);
      assert from[k] in from && buckets[from[k]] in buckets && Basic(q, buckets[from[k]], clock);
    }
    forall j, k | 0 <= j < k < |kept| && kept[j].keys == keys && kept[k].keys == keys
      ensures TimedOut(q, kept[j], end) || TimedOut(q, kept[k], end)
    {
      assert from[j] < from[k];
    }
    if awake && SubU64(now, end) < TimeoutNs(q.window) {
      var i :| 0 <= i < |buckets| && buckets[i].keys == keys && buckets[i].last == end;
      SurvivesIff(q.window, buckets, now, i);
      assert i in from;
    }
  }

  // ----- buckets against sessions

  lemma FoundExtends(q: Aggregate, st: AggState, keys: seq<string>, evs: seq<Stamped>, e: Event, t: nat)
    requires q.window.Session? && Sorted(evs) && EndTime(evs) <= t && evs != []
    requires t - EndTime(evs) < TimeoutNs(q.window)
    requires Partitioned(q, st, keys, evs) && SessionFor(q, st, keys, t) >= 0
    requires
      var b := st.buckets[SessionFor(q, st, keys, t)];
      b.keys == keys && b.last == EndTime(evs)
    ensures Sorted(evs + [(e, t)])
    ensures Partitioned(q, AfterArrival(q, st, keys, e.data, t), keys, evs + [(e, t)])
  {
    hide Sessions;
    var i, s := SessionFor(q, st, keys, t), Sessions(q, keys, evs);
    var b, b' := st.buckets[i], Updated(q, st.buckets[i], e.data, t);
    FoundIsLast(q, st, i, keys, evs);
    SessionsAfter(q, keys, evs, (e, t));
    UpdatedKeeps(q, b, e.data, t);
    ReplaceSession(st, i, b', keys, s);
  }

  /** A live bucket last touched by the group's last event is the group's last session. */
  lemma FoundIsLast(q: Aggregate, st: AggState, i: nat, keys: seq<string>, evs: seq<Stamped>)
    requires q.window.Session? && TimeoutNs(q.window) > 0 && Sorted(evs) && Partitioned(q, st, keys, evs)
    requires i < |st.buckets| && st.buckets[i].keys == keys && st.buckets[i].last == EndTime(evs)
    ensures
      var s := Sessions(q, keys, evs);
      s != [] && st.buckets[i] == s[|s| - 1]
  {
    hide Sessions;
    var s, b := Sessions(q, keys, evs), st.buckets[i];
    assert b in st.buckets;
    OfGroupMember(st.buckets, keys, b);
    assert b in multiset(OfGroup(st.buckets, keys));
    assert b in multiset(s);
    var m :| 0 <= m < |s| && s[m] == b;
    SessionTimes(q, keys, evs, m);
  }

  /** Replacing a live bucket and the last of the sessions it is part of, by the same new one. */
  lemma ReplaceSession(st: AggState, i: nat, b': Bucket, keys: seq<string>, s: seq<Bucket>)
    requires i < |st.buckets| && s != [] && st.buckets[i] == s[|s| - 1] && st.buckets[i].keys == keys == b'.keys
    requires multiset(OfGroup(st.emitted, keys)) + multiset(OfGroup(st.buckets, keys)) == multiset(s)
    ensures multiset(OfGroup(st.emitted, keys)) + multiset(OfGroup(st.buckets[i := b'], keys))
        == multiset(s[|s| - 1 := b'])
  {
    OfGroupUpdate(st.buckets, i, b', keys);
    ReplaceLast(s, b');
    Swap(multiset(OfGroup(st.emitted, keys)), multiset(OfGroup(st.buckets, keys)),
        multiset(OfGroup(st.buckets[i := b'], keys)),
         multiset(s), multiset(s[|s| - 1 := b']), st.buckets[i], b');
  }

  lemma NotFoundOpens(q: Aggregate, st: AggState, keys: seq<string>, evs: seq<Stamped>, e: Event, t: nat)
    requires q.window.Session? && Sorted(evs) && EndTime(evs) <= t
    requires evs != [] ==> t - EndTime(evs) >= TimeoutNs(q.window)
    requires Partitioned(q, st, keys, evs) && SessionFor(q, st, keys, t) < 0
    ensures Sorted(evs + [(e, t)])
    ensures Partitioned(q, AfterArrival(q, st, keys, e.data, t), keys, evs + [(e, t)])
  {
    hide Sessions, SessionFor;
    SessionsAfter(q, keys, evs, (e, t));
    OpenedSession(q, st.buckets, keys, e.data, t);
  }

  lemma OpenedSession(q: Aggregate, buckets: seq<Bucket>, keys: seq<string>, data: Option<Json>, t: nat)
    ensures var b := Updated(q, FreshBucket(keys, t, NO_END), data, t);
            OfGroup(buckets + [b], keys) == OfGroup(buckets, keys) + [b]
  {
    var b := Updated(q, FreshBucket(keys, t, NO_END), data, t);
    UpdatedKeeps(q, FreshBucket(keys, t, NO_END), data, t);
    assert (buckets + [b])[..|buckets|] == buckets;
  }

  lemma Swap(emitted: multiset<Bucket>, live: multiset<Bucket>, live': multiset<Bucket>,
             all: multiset<Bucket>, all': multiset<Bucket>, b: Bucket, b': Bucket)
    requires emitted + live == all
    requires live' + multiset{b} == live + multiset{b'} && all' + multiset{b} == all + multiset{b'}
    ensures emitted + live' == all'
  {
    forall x: Bucket ensures (emitted + live')[x] == all'[x] {
      assert (live' + multiset{b})[x] == (live + multiset{b'})[x] && (all' + multiset{b})[x] == (all + multiset{b'})[x];
      assert (emitted + live)[x] == all[x];
    }
  }

  lemma ReplaceLast(s: seq<Bucket>, b: Bucket)
    requires s != []
    ensures multiset(s[|s| - 1 := b]) + multiset{s[|s| - 1]} == multiset(s) + multiset{b}
  {
    var n := |s| - 1;
    assert s == s[..n] + [s[n]] && s[n := b] == s[..n] + [b];
  }

  /** How many buckets a group has had so far. */
  function BucketsOf(st: AggState, keys: seq<string>): nat {
    |OfGroup(st.emitted, keys)| + |OfGroup(st.buckets, keys)|
  }

  lemma ArrivalCounts(q: Aggregate, st: AggState, own: seq<string>, data: Option<Json>, t: nat, keys: seq<string>)
    requires q.window.Session? && Isolated(q, st, own, t)
    ensures
      var st' := AfterArrival(q, st, own, data, t);
      && BucketsOf(st', keys) == BucketsOf(st, keys) + (if own == keys && SessionFor(q, st, own, t) < 0 then 1 else 0)
      && (own != keys ==> OfGroup(st'.buckets, keys) == OfGroup(st.buckets, keys) && st'.emitted == st.emitted)
  {
    var i := SessionFor(q, st, own, t);
    if i >= 0 {
      UpdatedKeeps(q, st.buckets[i], data, t);
      OfGroupUpdate(st.buckets, i, Updated(q, st.buckets[i], data, t), keys);
      SameSize(OfGroup(st.buckets, keys), OfGroup(AfterArrival(q, st, own, data, t).buckets, keys), st.buckets[i],
          Updated(q, st.buckets[i], data, t));
    } else {
      var b := Updated(q, FreshBucket(own, t, NO_END), data, t);
      UpdatedKeeps(q, FreshBucket(own, t, NO_END), data, t);
      assert (st.buckets + [b])[..|st.buckets|] == st.buckets;
    }
  }

  lemma SameSize(a: seq<Bucket>, b: seq<Bucket>, x: Bucket, y: Bucket)
    ensures multiset(b) + multiset{x} == multiset(a) + multiset{y} ==> |a| == |b|
  {
    assert |multiset(a)| == |a| && |multiset(b)| == |b|;
    assert |multiset(b) + multiset{x}| == |b| + 1 && |multiset(a) + multiset{y}| == |a| + 1;
  }

  lemma FlushKeepsPartition(q: Aggregate, st: AggState, now: nat, keys: seq<string>)
    requires q.window.Session?
    ensures
      var st' := Flushed(q.window, st, now);
      && multiset(OfGroup(st'.emitted, keys)) + multiset(OfGroup(st'.buckets, keys))
         == multiset(OfGroup(st.emitted, keys)) + multiset(OfGroup(st.buckets, keys))
      && BucketsOf(st', keys) == BucketsOf(st, keys)
  {
    hide Kept, Emits;
    var kept, emits := Kept(q.window, st.buckets, now), Emits(q.window, st.buckets, now);
    FlushMovesBuckets(q.window, st.buckets, now, keys);
    OfGroupAppend(st.emitted, emits, keys);
    assert |multiset(OfGroup(emits, keys)) + multiset(OfGroup(kept, keys))|
        == |OfGroup(emits, keys)| + |OfGroup(kept, keys)|;
    assert |multiset(OfGroup(st.buckets, keys))| == |OfGroup(st.buckets, keys)|;
  }

  /** A group never has fewer buckets than sessions; it has the very sessions as long as no event that
      was in time found its session gone, and more buckets than sessions from then on. */
  ghost predicate PartitionedOrMore(q: Aggregate, st: AggState, keys: seq<string>, evs: seq<Stamped>, unsplit: bool)
    requires q.window.Session? && Sorted(evs)
  {
    if unsplit then Partitioned(q, st, keys, evs) else BucketsOf(st, keys) > |Sessions(q, keys, evs)|
  }

  lemma PartitionedSize(q: Aggregate, st: AggState, keys: seq<string>, evs: seq<Stamped>)
    requires q.window.Session? && Sorted(evs) && Partitioned(q, st, keys, evs)
    ensures BucketsOf(st, keys) == |Sessions(q, keys, evs)|
  {
    hide Sessions;
    var live, gone, all :=
        multiset(OfGroup(st.buckets, keys)), multiset(OfGroup(st.emitted, keys)), multiset(Sessions(q, keys, evs));
    assert |gone + live| == |gone| + |live| && |all| == |Sessions(q, keys, evs)|;
  }

  lemma OwnArrival(q: Aggregate, st: AggState, keys: seq<string>, evs: seq<Stamped>, e: Event, t: nat, awake: bool,
      unsplit: bool)
    requires q.window.Session? && Basics(q, st.buckets, t) && Sorted(evs) && EndTime(evs) <= t
    requires Isolated(q, st, keys, t)
    requires GroupLive(q, st.buckets, keys, EndTime(evs), awake) && (awake ==> evs != [])
    requires PartitionedOrMore(q, st, keys, evs, unsplit)
    ensures Sorted(evs + [(e, t)])
    ensures
      var split := evs != [] && t - EndTime(evs) < TimeoutNs(q.window) && !awake;
      PartitionedOrMore(q, AfterArrival(q, st, keys, e.data, t), keys, evs + [(e, t)], unsplit && !split)
  {
    hide Sessions, AfterArrival, SessionFor, GroupLive, Basics, OfGroup;
    SessionsAfter(q, keys, evs, (e, t));
    FoundIff(q, st, keys, t, EndTime(evs), awake, t);
    ArrivalCounts(q, st, keys, e.data, t, keys);
    var inTime := evs != [] && t - EndTime(evs) < TimeoutNs(q.window);
    if unsplit {
      PartitionedSize(q, st, keys, evs);
      if SessionFor(q, st, keys, t) >= 0 {
        FoundExtends(q, st, keys, evs, e, t);
      } else if !inTime {
        NotFoundOpens(q, st, keys, evs, e, t);
      }
    }
  }
}
