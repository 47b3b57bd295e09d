/** The nQL `correlate` query: two buffers of unbounded size, filled and probed per arrival and
    swept by a timer, against the batch band join of the events that match either side. */
module NqlCorrelate {
  import opened Values
  import opened FilterEngine
  import opened EventBuffers
  import opened BandJoin
  import opened NqlAst

  /** The probe uses the parsed 64-bit duration. */
  function JoinWindow(q: Correlate): nat {
    q.withinMs * NS_PER_MS
  }

  /** The sweep uses the copy kept in the executor's state, a `uint32_t`. */
  function SweepWindow(q: Correlate): nat {
    q.withinMs % U32 * NS_PER_MS
  }

  /** Buffers newest first, and the (left, right) pairs for which a result was emitted, in order. */
  datatype JoinState = JoinState(left: seq<Event>, right: seq<Event>, emitted: seq<Pair>)

  const EMPTY_JOIN := JoinState([], [], [])

  function AsLeft(st: JoinState, e: Event, window: nat): JoinState {
    JoinState([e] + st.left, st.right, st.emitted + Probe(st.right, e, true, window))
  }

  function AsRight(st: JoinState, e: Event, window: nat): JoinState {
    JoinState(st.left, [e] + st.right, st.emitted + Probe(st.left, e, false, window))
  }

  function Arrived(re: RegexEngine, q: Correlate, st: JoinState, e: Event): JoinState {
    var st1 := if Matches(re, q.left, e) then AsLeft(st, e, JoinWindow(q)) else st;
    if Matches(re, q.right, e) then AsRight(st1, e, JoinWindow(q)) else st1
  }

  function Swept(q: Correlate, st: JoinState, now: nat): JoinState {
    var cutoff := Cutoff(now, SweepWindow(q));
    JoinState(Retain(st.left, cutoff), Retain(st.right, cutoff), st.emitted)
  }

  // ----- the imperative executor

  class Correlator {
    const regex: RegexEngine
    const withinMs: nat  // truncated to 32 bits when the state was created
    const leftEvents: EventBuffer
    const rightEvents: EventBuffer
    var emitted: seq<Pair>

    ghost predicate Valid()
      reads leftEvents, leftEvents.Repr, rightEvents, rightEvents.Repr
    {
      && leftEvents.Valid() && rightEvents.Valid()
      && leftEvents.Repr !! rightEvents.Repr && this !in leftEvents.Repr + rightEvents.Repr
    }

    ghost function State(): JoinState
      reads this, leftEvents, rightEvents
    {
      JoinState(leftEvents.Events(), rightEvents.Events(), emitted)
    }

    constructor (regex: RegexEngine, q: Correlate)
      ensures Valid() && State() == EMPTY_JOIN && this.regex == regex && withinMs == q.withinMs % U32
    {
      this.regex, withinMs, emitted := regex, q.withinMs % U32, [];
      leftEvents := new EventBuffer();
      rightEvents := new EventBuffer();
    }

    /** execute_correlate */
    method Execute(q: Correlate, event: Event) returns (matched: bool)
      requires Valid() && withinMs == q.withinMs % U32
      modifies this, leftEvents, rightEvents
      ensures Valid() && State() == Arrived(regex, q, old(State()), event)
      ensures matched == (Matches(regex, q.left, event) || Matches(regex, q.right, event))
    {
      var matchesLeft := Matches(regex, q.left, event);
      var matchesRight := Matches(regex, q.right, event);
      if !matchesLeft && !matchesRight {
        return false;
      }
      var window := q.withinMs * NS_PER_MS;
      if matchesLeft {
        TakeLeft(event, window);
      }
      if matchesRight {
        TakeRight(event, window);
      }
      return true;
    }

    method TakeLeft(event: Event, window: nat)
      requires Valid()
      modifies this, leftEvents
      ensures Valid() && State() == AsLeft(old(State()), event, window)
    {
      leftEvents.Push(event);
      ProbeBuffer(rightEvents, event, true, window);
    }

    method TakeRight(event: Event, window: nat)
      requires Valid()
      modifies this, rightEvents
      ensures Valid() && State() == AsRight(old(State()), event, window)
    {
      rightEvents.Push(event);
      ProbeBuffer(leftEvents, event, false, window);
    }

    /** The matching loop of execute_correlate over the other side's buffer. */
    method ProbeBuffer(buffer: EventBuffer, event: Event, isLeft: bool, window: nat)
      requires buffer.Valid() && this !in buffer.Repr
      modifies this
      ensures emitted == old(emitted) + Probe(buffer.Events(), event, isLeft, window)
    {
      var entry := buffer.head;
      ghost var entries := buffer.Events();
      ghost var k := 0;
      while entry != null
        invariant k <= |entries|
        invariant entry == if k < |entries| then buffer.nodes[k] else null
        invariant emitted == old(emitted) + Probe(entries[..k], event, isLeft, window)
        decreases |entries| - k
      {
        assert entries[..k + 1] == entries[..k] + [entry.event];
        ProbeAppend(entries[..k], entry.event, event, isLeft, window);
        assert buffer.nodes[k].next == if k + 1 < |entries| then buffer.nodes[k + 1] else null;
        if Near(event.timestamp, entry.event.timestamp, window) {
          emitted := emitted + [if isLeft then (event, entry.event) else (entry.event, event)];
        }
        entry := entry.next;
        k := k + 1;
      }
      assert entries[..k] == entries;
    }

    /** corr_cleanup_cb, at clock `now` */
    method CleanupTimer(now: nat, ghost q: Correlate)
      requires Valid() && withinMs == q.withinMs % U32
      modifies leftEvents.Repr, rightEvents.Repr
      ensures Valid() && State() == Swept(q, old(State()), now)
    {
      var cutoff := Cutoff(now, withinMs * NS_PER_MS);
      leftEvents.RemoveOlder(cutoff);
      rightEvents.RemoveOlder(cutoff);
    }
  }

  // ----- runs

  ghost function Run(re: RegexEngine, q: Correlate, steps: seq<Step>): JoinState {
    if steps == [] then EMPTY_JOIN
    else Next(re, q, Run(re, q, steps[..|steps| - 1]), steps[|steps| - 1])
  }

  function Next(re: RegexEngine, q: Correlate, st: JoinState, s: Step): JoinState {
    match s
    case Arrive(e) => Arrived(re, q, st, e)
    case Cleanup(now) => Swept(q, st, now)
  }

  /** The arrivals that match a filter, newest first. */
  ghost function Matching(re: RegexEngine, filter: FilterNode, steps: seq<Step>): seq<Event> {
    if steps == [] then []
    else
      var before := Matching(re, filter, steps[..|steps| - 1]);
      var s := steps[|steps| - 1];
      if s.Arrive? && Matches(re, filter, s.event) then [s.event] + before else before
  }

  function Relevant(re: RegexEngine, q: Correlate): Event -> bool {
    e => Matches(re, q.left, e) || Matches(re, q.right, e)
  }

  /** One side of the join: its buffer serves the floor as well as everything that matched would. */
  ghost predicate SideServes(re: RegexEngine, filter: FilterNode, kept: seq<Event>, steps: seq<Step>, window: nat) {
    ServesFrom(kept, Matching(re, filter, steps), window, Floor(steps, window))
  }

  lemma SideAfterStep(re: RegexEngine, filter: FilterNode, kept: seq<Event>, steps: seq<Step>, window: nat)
    requires steps != [] && SideServes(re, filter, kept, steps[..|steps| - 1], window)
    ensures var s := steps[|steps| - 1];
            && (s.Arrive?
                ==> SideServes(
                    re, filter, (if Matches(re, filter, s.event) then [s.event] else []) + kept, steps, window))
            && (s.Cleanup? && 2 * window <= s.now < U64
                ==> SideServes(re, filter, Retain(kept, Cutoff(s.now, window)), steps, window))
  {
    var prefix, s := steps[..|steps| - 1], steps[|steps| - 1];
    var all, floor := Matching(re, filter, prefix), Floor(prefix, window);
    match s
    case Arrive(e) =>
      ServesAfterPush(kept, all, window, floor, e);
      assert [] + kept == kept;
    case Cleanup(now) =>
      if 2 * window <= now < U64 {
        ServesAfterCleanup(kept, all, window, floor, now);
      }
  }

  function SideFilter(q: Correlate, isLeft: bool): FilterNode {
    if isLeft then q.left else q.right
  }

  function SideBuffer(st: JoinState, isLeft: bool): seq<Event> {
    if isLeft then st.left else st.right
  }

  /** The sweep uses the probe's window, or the window is so long that no clock allows a timely sweep. */
  predicate SweepsInTime(q: Correlate) {
    q.withinMs < U32 || 2 * JoinWindow(q) >= U64
  }

  /** What one step does to one side's buffer. */
  lemma SideStep(re: RegexEngine, q: Correlate, st: JoinState, s: Step, isLeft: bool)
    ensures var before, after := SideBuffer(st, isLeft), SideBuffer(Next(re, q, st, s), isLeft);
            && (s.Arrive? ==> after == (if Matches(re, SideFilter(q, isLeft), s.event) then [s.event] else []) + before)
            && (s.Cleanup? ==> after == Retain(before, Cutoff(s.now, SweepWindow(q))))
  {
  }

  lemma EmptySides(re: RegexEngine, q: Correlate, isLeft: bool)
    ensures SideBuffer(Run(re, q, []), isLeft) == [] && Gone(re, q, [], isLeft) == []
    ensures Matching(re, SideFilter(q, isLeft), []) == []
  {
  }

  lemma SameWindow(q: Correlate)
    requires q.withinMs < U32
    ensures SweepWindow(q) == JoinWindow(q)
  {
  }

  lemma {:induction false} BufferServes(re: RegexEngine, q: Correlate, steps: seq<Step>, isLeft: bool)
    requires Timely(steps, JoinWindow(q), Relevant(re, q)) && SweepsInTime(q)
    ensures SideServes(re, SideFilter(q, isLeft), SideBuffer(Run(re, q, steps), isLeft), steps, JoinWindow(q))
  {
    hide Matches, SideBuffer, SideFilter, Next, SweepWindow, Matching;
    if steps == [] {
      EmptySides(re, q, isLeft);
    } else {
      var prefix, s := steps[..|steps| - 1], steps[|steps| - 1];
      TimelyPrefix(steps, JoinWindow(q), Relevant(re, q));
      BufferServes(re, q, prefix, isLeft);
      SideAfterStep(re, SideFilter(q, isLeft), SideBuffer(Run(re, q, prefix), isLeft), steps, JoinWindow(q));
      SideStep(re, q, Run(re, q, prefix), s, isLeft);
      if s.Cleanup? {
        SameWindow(q);
      }
    }
  }

  /** One arrival adds exactly its own pairs, its pair with itself included when it matches both. */
  lemma ArrivalJoins(re: RegexEngine, q: Correlate, st: JoinState, e: Event, lefts: seq<Event>, rights: seq<Event>)
    requires ServesFrom(st.left, lefts, JoinWindow(q), e.timestamp)
    requires ServesFrom(st.right, rights, JoinWindow(q), e.timestamp)
    requires multiset(st.emitted) == Join(lefts, rights, JoinWindow(q))
    ensures var lefts' := if Matches(re, q.left, e) then [e] + lefts else lefts;
            var rights' := if Matches(re, q.right, e) then [e] + rights else rights;
            multiset(Arrived(re, q, st, e).emitted) == Join(lefts', rights', JoinWindow(q))
  {
    var window := JoinWindow(q);
    JoinAddLeft(e, lefts, rights, window);
    ServesAfterPush(st.left, lefts, window, e.timestamp, e);
    JoinAddRight(if Matches(re, q.left, e) then [e] + lefts else lefts, e, rights, window);
  }

  /** `correlate` is an exactly-once band join in spite of eviction: over any interleaving of
      arrivals and cleanups that keeps the lateness bound, the emitted pairs are those of the
      nested-loop join of everything that matched left with everything that matched right. */
  lemma {:induction false} CorrelateIsTheBandJoin(re: RegexEngine, q: Correlate, steps: seq<Step>)
    requires Timely(steps, JoinWindow(q), Relevant(re, q)) && SweepsInTime(q)
    ensures multiset(Run(re, q, steps).emitted)
         == Join(Matching(re, q.left, steps), Matching(re, q.right, steps), JoinWindow(q))
  {
    if steps != [] {
      var prefix, s, window := steps[..|steps| - 1], steps[|steps| - 1], JoinWindow(q);
      TimelyPrefix(steps, window, Relevant(re, q));
      CorrelateIsTheBandJoin(re, q, prefix);
      if s.Arrive? && Relevant(re, q)(s.event) {
        BufferServes(re, q, prefix, true);
        BufferServes(re, q, prefix, false);
        TimelyArrival(steps, window, Relevant(re, q));
        ArrivalJoins(re, q, Run(re, q, prefix), s.event, Matching(re, q.left, prefix), Matching(re, q.right, prefix));
      }
    }
  }

  // ----- soundness, whatever the lateness and the window

  lemma {:induction false} BufferIsSound(re: RegexEngine, q: Correlate, steps: seq<Step>, isLeft: bool)
    ensures multiset(SideBuffer(Run(re, q, steps), isLeft)) <= multiset(Matching(re, SideFilter(q, isLeft), steps))
  {
    if steps != [] {
      var prefix, s := steps[..|steps| - 1], steps[|steps| - 1];
      BufferIsSound(re, q, prefix, isLeft);
      if s.Cleanup? {
        RetainShrinks(SideBuffer(Run(re, q, prefix), isLeft), Cutoff(s.now, SweepWindow(q)));
      }
    }
  }

  lemma LeftIsSound(st: JoinState, e: Event, lefts: seq<Event>, rights: seq<Event>, window: nat)
    requires multiset(st.right) <= multiset(rights) && multiset(st.emitted) <= Join(lefts, rights, window)
    ensures multiset(AsLeft(st, e, window).emitted) <= Join([e] + lefts, rights, window)
  {
    NewPairsBelow(e, st.right, rights, window);
    assert ([e] + lefts)[1..] == lefts;
  }

  lemma RightIsSound(st: JoinState, e: Event, lefts: seq<Event>, rights: seq<Event>, window: nat)
    requires multiset(st.left) <= multiset(lefts) && multiset(st.emitted) <= Join(lefts, rights, window)
    ensures multiset(AsRight(st, e, window).emitted) <= Join(lefts, [e] + rights, window)
  {
    NewPairsBelow(e, st.left, lefts, window);
    JoinAddRight(lefts, e, rights, window);
  }

  /** Over every run, late events and truncated windows included, what is emitted is part of the
      join: each pair matches left and right within the window, and none comes up more often than
      it should. */
  lemma {:induction false} EmittedPairsAreSound(re: RegexEngine, q: Correlate, steps: seq<Step>)
    ensures multiset(Run(re, q, steps).emitted)
         <= Join(Matching(re, q.left, steps), Matching(re, q.right, steps), JoinWindow(q))
  {
    if steps != [] {
      var prefix, s, window := steps[..|steps| - 1], steps[|steps| - 1], JoinWindow(q);
      EmittedPairsAreSound(re, q, prefix);
      if s.Arrive? {
        BufferIsSound(re, q, prefix, true);
        BufferIsSound(re, q, prefix, false);
        var st, e := Run(re, q, prefix), s.event;
        var lefts, rights := Matching(re, q.left, prefix), Matching(re, q.right, prefix);
        if Matches(re, q.left, e) {
          LeftIsSound(st, e, lefts, rights, window);
          st, lefts := AsLeft(st, e, window), [e] + lefts;
        }
        if Matches(re, q.right, e) {
          RightIsSound(st, e, lefts, rights, window);
        }
      }
    }
  }

  // ----- where the two windows disagree

  lemma RunAppend(re: RegexEngine, q: Correlate, prefix: seq<Step>, s: Step)
    ensures Run(re, q, prefix + [s]) == Next(re, q, Run(re, q, prefix), s)
    ensures Matching(re, q.left, prefix + [s])
         == (if s.Arrive? && Matches(re, q.left, s.event) then [s.event] else []) + Matching(re, q.left, prefix)
    ensures Matching(re, q.right, prefix + [s])
         == (if s.Arrive? && Matches(re, q.right, s.event) then [s.event] else []) + Matching(re, q.right, prefix)
  {
    assert (prefix + [s])[..|prefix|] == prefix;
  }

  lemma TimelyTriple(l: Event, r: Event, t: nat, window: nat, relevant: Event -> bool)
    requires 2 * window <= t < U64 && r.timestamp >= t - window
    ensures Timely([Arrive(l), Cleanup(t), Arrive(r)], window, relevant)
  {
  }

  lemma RunOfThree(re: RegexEngine, q: Correlate, l: Event, t: nat, r: Event)
    ensures
      var steps := [Arrive(l), Cleanup(t), Arrive(r)];
      && Run(re, q, steps) == Arrived(re, q, Swept(q, Arrived(re, q, EMPTY_JOIN, l), t), r)
      && (Matches(re, q.left, l) ==> l in Matching(re, q.left, steps))
      && (Matches(re, q.right, r) ==> r in Matching(re, q.right, steps))
  {
    hide Matches, Matching, Run, Arrived, Swept;
    EmptyRun(re, q);
    RunAppend(re, q, [], Arrive(l));
    assert [] + [Arrive(l)] == [Arrive(l)];
    RunAppend(re, q, [Arrive(l)], Cleanup(t));
    assert [Arrive(l)] + [Cleanup(t)] == [Arrive(l), Cleanup(t)];
    RunAppend(re, q, [Arrive(l), Cleanup(t)], Arrive(r));
    assert [Arrive(l), Cleanup(t)] + [Arrive(r)] == [Arrive(l), Cleanup(t), Arrive(r)];
  }

  lemma EmptyRun(re: RegexEngine, q: Correlate)
    ensures Run(re, q, []) == EMPTY_JOIN
  {
  }

  /** An event that finds both buffers empty pairs at most with itself. */
  lemma ArrivesAlone(re: RegexEngine, q: Correlate, emitted: seq<Pair>, e: Event, p: Pair)
    requires p !in emitted && p != (e, e)
    ensures
      var st := Arrived(re, q, JoinState([], [], emitted), e);
      && p !in st.emitted
      && st.left == (if Matches(re, q.left, e) then [e] else [])
      && st.right == (if Matches(re, q.right, e) then [e] else [])
  {
    hide Matches;
    assert Within([e], e, JoinWindow(q)) == [e];
  }

  /** A sweep between two events, after the first has left its window, keeps them apart. */
  lemma SweptTooEarly(re: RegexEngine, q: Correlate, l: Event, r: Event, t: nat)
    requires 2 * SweepWindow(q) <= t < U64 && l.timestamp < t - 2 * SweepWindow(q) && l != r
    ensures (l, r) !in Arrived(re, q, Swept(q, Arrived(re, q, EMPTY_JOIN, l), t), r).emitted
  {
    hide Arrived, Matches;
    var st := Arrived(re, q, EMPTY_JOIN, l);
    ArrivesAlone(re, q, [], l, (l, r));
    assert Retain([l], Cutoff(t, SweepWindow(q))) == [];
    ArrivesAlone(re, q, st.emitted, r, (l, r));
  }

  lemma PairIsJoined(lefts: seq<Event>, rights: seq<Event>, window: nat, l: Event, r: Event)
    requires l in lefts && r in rights && InWindow(l, r, window)
    ensures (l, r) in Join(lefts, rights, window)
  {
    JoinCount(lefts, rights, window, (l, r));
    PositiveProduct(multiset(lefts)[l], multiset(rights)[r]);
  }

  lemma PositiveProduct(a: nat, b: nat)
    requires a > 0 && b > 0
    ensures a * b > 0
  {
  }

  /** From 2^32 milliseconds on even twice the sweep's window is shorter than the probe's. */
  lemma SweepFallsShort(q: Correlate)
    requires q.withinMs >= U32
    ensures 2 * SweepWindow(q) < JoinWindow(q)
  {
    var rest := q.withinMs % U32;
    assert q.withinMs == q.withinMs / U32 * U32 + rest && q.withinMs / U32 >= 1;
    assert 2 * rest < q.withinMs;
  }

  /** From 2^32 milliseconds on there is, at any such duration, a timely run that loses a pair. The events
      may be any that match the left and the right filter, dated anew; they may be one and the same. */
  lemma TruncatedWindowLosesAPair(re: RegexEngine, q: Correlate, l: Event, r: Event)
    returns (steps: seq<Step>, lost: Pair)
    requires Matches(re, q.left, l) && Matches(re, q.right, r) && !SweepsInTime(q)
    ensures Timely(steps, JoinWindow(q), Relevant(re, q)) && lost !in Run(re, q, steps).emitted
    ensures lost in Join(Matching(re, q.left, steps), Matching(re, q.right, steps), JoinWindow(q))
  {
    hide Matches, Matching, Run, Arrived, Swept;
    SweepFallsShort(q);
    var t := 2 * JoinWindow(q);
    var x := t - 2 * SweepWindow(q) - 1;
    var early, late := l.(timestamp := x), r.(timestamp := t);
    DatedAnew(re, q, l, x);
    DatedAnew(re, q, r, t);
    SweptTooEarly(re, q, early, late, t);
    RunOfThree(re, q, early, t, late);
    TimelyTriple(early, late, t, JoinWindow(q), Relevant(re, q));
    steps, lost := [Arrive(early), Cleanup(t), Arrive(late)], (early, late);
    PairIsJoined(Matching(re, q.left, steps), Matching(re, q.right, steps), JoinWindow(q), early, late);
  }

  lemma DatedAnew(re: RegexEngine, q: Correlate, e: Event, t: nat)
    ensures Matches(re, q.left, e.(timestamp := t)) == Matches(re, q.left, e)
    ensures Matches(re, q.right, e.(timestamp := t)) == Matches(re, q.right, e)
  {
  }

  ghost predicate JoinsEveryTimelyRun(re: RegexEngine, q: Correlate) {
    forall steps: seq<Step> :: Timely(steps, JoinWindow(q), Relevant(re, q))
      ==> multiset(Run(re, q, steps).emitted)
          == Join(Matching(re, q.left, steps), Matching(re, q.right, steps), JoinWindow(q))
  }

  ghost predicate NeverMatches(re: RegexEngine, filter: FilterNode) {
    forall e: Event :: !Matches(re, filter, e)
  }

  lemma {:induction false} NoMatches(re: RegexEngine, filter: FilterNode, steps: seq<Step>)
    requires NeverMatches(re, filter)
    ensures Matching(re, filter, steps) == []
  {
    hide Matches;
    if steps != [] {
      NoMatches(re, filter, steps[..|steps| - 1]);
    }
  }

  lemma {:induction false} NothingToJoin(events: seq<Event>, window: nat)
    ensures Join([], events, window) == Join(events, [], window) == multiset{}
  {
    if events != [] {
      NothingToJoin(events[1..], window);
      assert multiset(WithLeft(events[0], Within([], events[0], window))) == multiset{};
    }
  }

  /** `correlate` is the band join over every timely run if and only if its duration is below 2^32
      milliseconds, or so long that no sweep can be timely, or one of its filters matches nothing. */
  lemma CorrelateIsTheBandJoinIff(re: RegexEngine, q: Correlate)
    ensures JoinsEveryTimelyRun(re, q)
       <==> SweepsInTime(q) || NeverMatches(re, q.left) || NeverMatches(re, q.right)
  {
    hide Matches, Timely, Run;
    if SweepsInTime(q) || NeverMatches(re, q.left) || NeverMatches(re, q.right) {
      forall steps: seq<Step> | Timely(steps, JoinWindow(q), Relevant(re, q))
        ensures multiset(Run(re, q, steps).emitted)
            == Join(Matching(re, q.left, steps), Matching(re, q.right, steps), JoinWindow(q))
      {
        JoinedOrEmpty(re, q, steps);
      }
    } else {
      var l: Event :| Matches(re, q.left, l);
      var r: Event :| Matches(re, q.right, r);
      var steps, lost := TruncatedWindowLosesAPair(re, q, l, r);
      assert lost !in multiset(Run(re, q, steps).emitted);
    }
  }

  lemma JoinedOrEmpty(re: RegexEngine, q: Correlate, steps: seq<Step>)
    requires SweepsInTime(q) || NeverMatches(re, q.left) || NeverMatches(re, q.right)
    requires Timely(steps, JoinWindow(q), Relevant(re, q))
    ensures multiset(Run(re, q, steps).emitted)
         == Join(Matching(re, q.left, steps), Matching(re, q.right, steps), JoinWindow(q))
  {
    hide Matches, Timely, Run, Matching, Join;
    if SweepsInTime(q) {
      CorrelateIsTheBandJoin(re, q, steps);
    } else {
      EmittedPairsAreSound(re, q, steps);
      if NeverMatches(re, q.left) {
        NoMatches(re, q.left, steps);
        NothingToJoin(Matching(re, q.right, steps), JoinWindow(q));
      } else {
        NoMatches(re, q.right, steps);
        NothingToJoin(Matching(re, q.left, steps), JoinWindow(q));
      }
    }
  }

  // ----- what sweeps cost over any run

  /** The events of one side that a sweep evicted. */
  ghost function Gone(re: RegexEngine, q: Correlate, steps: seq<Step>, isLeft: bool): seq<Event> {
    if steps == [] then []
    else
      var prefix, s := steps[..|steps| - 1], steps[|steps| - 1];
      var before := Gone(re, q, prefix, isLeft);
      match s
      case Arrive(_) => before
      case Cleanup(now) => before + Evicted(SideBuffer(Run(re, q, prefix), isLeft), Cutoff(now, SweepWindow(q)))
  }

  lemma {:induction false} KeptOrGone(re: RegexEngine, q: Correlate, steps: seq<Step>, isLeft: bool)
    ensures multiset(Matching(re, SideFilter(q, isLeft), steps))
         == multiset(SideBuffer(Run(re, q, steps), isLeft)) + multiset(Gone(re, q, steps, isLeft))
  {
    hide Matches, SideBuffer, SideFilter, Next;
    if steps == [] {
      EmptySides(re, q, isLeft);
    } else {
      var prefix, s := steps[..|steps| - 1], steps[|steps| - 1];
      KeptOrGone(re, q, prefix, isLeft);
      SideStep(re, q, Run(re, q, prefix), s, isLeft);
      match s
      case Arrive(e) =>
      case Cleanup(now) => RetainedOrEvicted(SideBuffer(Run(re, q, prefix), isLeft), Cutoff(now, SweepWindow(q)));
    }
  }

  /** No event finds one in its window that it would have been paired with and that a sweep evicted. */
  ghost predicate NothingGone(re: RegexEngine, q: Correlate, steps: seq<Step>) {
    steps == [] ||
    var prefix, s := steps[..|steps| - 1], steps[|steps| - 1];
    && NothingGone(re, q, prefix)
    && (s.Arrive? && Matches(re, q.left, s.event)
        ==> Within(Gone(re, q, prefix, false), s.event, JoinWindow(q)) == [])
    && (s.Arrive? && Matches(re, q.right, s.event)
        ==> Within(Gone(re, q, prefix, true), s.event, JoinWindow(q)) == [])
  }

  /** How far the emitted pairs are behind the join, and whether they are at all. */
  ghost predicate Behind(emitted: seq<Pair>, join: multiset<Pair>, level: bool) {
    multiset(emitted) <= join && (|emitted| == |join| <==> level)
  }

  lemma ProbeBehind(emitted: seq<Pair>, join: multiset<Pair>, level: bool, e: Event, isLeft: bool,
      all: seq<Event>, kept: seq<Event>, gone: seq<Event>, window: nat)
    requires Behind(emitted, join, level) && multiset(all) == multiset(kept) + multiset(gone)
    ensures Behind(emitted + Probe(kept, e, isLeft, window), multiset(Probe(all, e, isLeft, window)) + join,
                   level && Within(gone, e, window) == [])
  {
    hide Probe, Within;
    var found := Probe(kept, e, isLeft, window);
    ProbeMisses(all, kept, gone, e, isLeft, window);
    BagsGrow(multiset(emitted), join, multiset(found), multiset(Probe(all, e, isLeft, window)),
        |Within(gone, e, window)|);
    var grown := multiset(Probe(all, e, isLeft, window));
    assert multiset(emitted + found) == multiset(emitted) + multiset(found) && grown + join == join + grown;
  }

  lemma ProbedRight(lefts: seq<Event>, e: Event, rights: seq<Event>, window: nat)
    ensures Join(lefts, [e] + rights, window) == multiset(Probe(lefts, e, false, window)) + Join(lefts, rights, window)
  {
    JoinAddRight(lefts, e, rights, window);
  }

  lemma ArrivalBehind(re: RegexEngine, q: Correlate, st: JoinState, e: Event, lefts: seq<Event>, rights: seq<Event>,
      goneLeft: seq<Event>, goneRight: seq<Event>, level: bool)
    requires Behind(st.emitted, Join(lefts, rights, JoinWindow(q)), level)
    requires multiset(lefts) == multiset(st.left) + multiset(goneLeft)
    requires multiset(rights) == multiset(st.right) + multiset(goneRight)
    ensures
      var lefts' := if Matches(re, q.left, e) then [e] + lefts else lefts;
      var rights' := if Matches(re, q.right, e) then [e] + rights else rights;
      Behind(Arrived(re, q, st, e).emitted, Join(lefts', rights', JoinWindow(q)),
             level && (Matches(re, q.left, e) ==> Within(goneRight, e, JoinWindow(q)) == [])
                   && (Matches(re, q.right, e) ==> Within(goneLeft, e, JoinWindow(q)) == []))
  {
    hide Matches, Within, Behind, Join, Probe;
    var window, join, still := JoinWindow(q), Join(lefts, rights, JoinWindow(q)), level;
    var st', lefts' := st, lefts;
    if Matches(re, q.left, e) {
      ProbeBehind(st.emitted, join, level, e, true, rights, st.right, goneRight, window);
      JoinAddLeft(e, lefts, rights, window);
      st', lefts', still := AsLeft(st, e, window), [e] + lefts, level && Within(goneRight, e, window) == [];
    }
    if Matches(re, q.right, e) {
      assert multiset(lefts') == multiset(st'.left) + multiset(goneLeft);
      ProbeBehind(st'.emitted, Join(lefts', rights, window), still, e, false, lefts', st'.left, goneLeft, window);
      ProbedRight(lefts', e, rights, window);
    }
  }

  lemma {:induction false} EmittedFallsBehind(re: RegexEngine, q: Correlate, steps: seq<Step>)
    ensures Behind(Run(re, q, steps).emitted,
                   Join(Matching(re, q.left, steps), Matching(re, q.right, steps), JoinWindow(q)),
                   NothingGone(re, q, steps))
  {
    hide Matches, Arrived, Gone, Within;
    if steps != [] {
      hide Join, Behind;
      var prefix, s := steps[..|steps| - 1], steps[|steps| - 1];
      EmittedFallsBehind(re, q, prefix);
      if s.Arrive? {
        KeptOrGone(re, q, prefix, true);
        KeptOrGone(re, q, prefix, false);
        ArrivalBehind(re, q, Run(re, q, prefix), s.event, Matching(re, q.left, prefix), Matching(re, q.right, prefix),
                      Gone(re, q, prefix, true), Gone(re, q, prefix, false), NothingGone(re, q, prefix));
      }
    }
  }

  /** Over every run, with any duration, lateness and clocks: the emitted pairs are the band join if and only
      if no event comes within the window of an earlier one of the other side that a sweep evicted. */
  lemma RunIsTheBandJoinIff(re: RegexEngine, q: Correlate, steps: seq<Step>)
    ensures multiset(Run(re, q, steps).emitted)
        == Join(Matching(re, q.left, steps), Matching(re, q.right, steps), JoinWindow(q))
       <==> NothingGone(re, q, steps)
  {
    hide Run, Matching, Join, NothingGone;
    EmittedFallsBehind(re, q, steps);
    SameSizeSame(multiset(Run(re, q, steps).emitted),
                 Join(Matching(re, q.left, steps), Matching(re, q.right, steps), JoinWindow(q)));
  }
}
