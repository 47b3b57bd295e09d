/** What the time-based engine guarantees over every run of arrivals and cleanups. */
module TimeCorrelationRuns {
  import opened Values
  import opened FilterEngine
  import opened EventBuffers
  import opened BandJoin
  import opened TimeCorrelation

  ghost function Run(re: RegexEngine, steps: seq<Step>, window: nat): WorldState {
    if steps == [] then EMPTY_WORLD
    else
      var st := Run(re, steps[..|steps| - 1], window);
      match steps[|steps| - 1]
      case Arrive(e) => Emitted(re, st, e, window)
      case Cleanup(now) => Cleaned(st, now, window)
  }

  ghost predicate RawRun(steps: seq<Step>) {
    forall i :: 0 <= i < |steps| && steps[i].Arrive? ==> Raw(steps[i].event)
  }

  /** The accepted events of one kind, newest first. */
  ghost function Accepteds(re: RegexEngine, steps: seq<Step>, kind: EventKind): seq<Event> {
    if steps == [] then []
    else
      var before := Accepteds(re, steps[..|steps| - 1], kind);
      var s := steps[|steps| - 1];
      if s.Arrive? && s.event.kind == kind && Accepted(re, s.event) then [s.event] + before else before
  }

  /** The (log, network) pairs reported over the run, in order. */
  ghost function RunPairs(re: RegexEngine, steps: seq<Step>, window: nat): seq<Pair> {
    if steps == [] then []
    else
      var prefix := steps[..|steps| - 1];
      var s := steps[|steps| - 1];
      RunPairs(re, prefix, window) +
      if s.Arrive? && Accepted(re, s.event) then NewPairs(Run(re, prefix, window), s.event, window) else []
  }

  function CorrelationsIn(handled: seq<Event>): seq<Event> {
    if handled == [] then []
    else
      var before := CorrelationsIn(handled[..|handled| - 1]);
      var e := handled[|handled| - 1];
      if e.kind == Correlation then before + [e] else before
  }

  function AcceptedBy(re: RegexEngine): Event -> bool {
    e => Accepted(re, e)
  }

  // ----- accounting

  lemma {:induction false} CorrelationsInAppend(handled: seq<Event>, more: seq<Event>)
    requires forall i :: 0 <= i < |more| ==> more[i].kind == Correlation
    ensures CorrelationsIn(handled + more) == CorrelationsIn(handled) + more
  {
    if more == [] {
      assert handled + more == handled;
    } else {
      var init, last := more[..|more| - 1], more[|more| - 1];
      assert (handled + more)[..|handled + more| - 1] == handled + init;
      assert more == init + [last];
      CorrelationsInAppend(handled, init);
    }
  }

  /** Every accepted raw event and every correlation is counted and handled exactly once, both
      correlation counters agree, and the handler receives exactly the events of the run's pairs. */
  lemma {:induction false} Accounting(re: RegexEngine, steps: seq<Step>, window: nat)
    requires RawRun(steps)
    ensures var st, pairs := Run(re, steps, window), RunPairs(re, steps, window);
            && st.correlated == st.found == |pairs|
            && st.processed == |Accepteds(re, steps, Log)| + |Accepteds(re, steps, Network)| + |pairs|
            && |st.handled| == st.processed
            && CorrelationsIn(st.handled) == CorrelationEvents(pairs, window)
  {
    hide Emitted, Cleaned, NewPairs, Accepted, CorrelationEvents;
    if steps == [] {
      NothingHandled(window);
    } else {
      var prefix, s := steps[..|steps| - 1], steps[|steps| - 1];
      assert forall i :: 0 <= i < |prefix| ==> prefix[i] == steps[i];
      Accounting(re, prefix, window);
      if s.Arrive? && Accepted(re, s.event) {
        ArrivalAccounting(re, Run(re, prefix, window), s.event, window);
        CorrelationEventsAppend(RunPairs(re, prefix, window), NewPairs(Run(re, prefix, window), s.event, window),
            window);
      } else {
        NothingCounted(re, Run(re, prefix, window), s, window);
        assert RunPairs(re, prefix, window) + [] == RunPairs(re, prefix, window);
      }
    }
  }

  lemma NothingHandled(window: nat)
    ensures CorrelationsIn([]) == CorrelationEvents([], window) == []
  {
  }

  /** A rejected event and a cleanup leave the counters and the handler alone. */
  lemma NothingCounted(re: RegexEngine, st: WorldState, s: Step, window: nat)
    requires s.Arrive? ==> !Accepted(re, s.event)
    ensures
      var st' := match s case Arrive(e) => Emitted(re, st, e, window) case Cleanup(now) => Cleaned(st, now, window);
      st'.processed == st.processed && st'.correlated == st.correlated && st'.found == st.found
          && st'.handled == st.handled
  {
  }

  lemma CorrelationEventsAppend(a: seq<Pair>, b: seq<Pair>, window: nat)
    ensures CorrelationEvents(a + b, window) == CorrelationEvents(a, window) + CorrelationEvents(b, window)
  {
  }

  lemma ArrivalAccounting(re: RegexEngine, st: WorldState, e: Event, window: nat)
    requires Raw(e) && Accepted(re, e)
    ensures var st', added := Emitted(re, st, e, window), NewPairs(st, e, window);
            && st'.correlated == st.correlated + |added| && st'.found == st.found + |added|
            && st'.processed == st.processed + 1 + |added|
            && |st'.handled| == |st.handled| + 1 + |added|
            && CorrelationsIn(st'.handled) == CorrelationsIn(st.handled) + CorrelationEvents(added, window)
  {
    var events := CorrelationEvents(NewPairs(st, e, window), window);
    CorrelationsInAppend(st.handled, events);
    RawIsSkipped(st.handled + events, e);
  }

  lemma RawIsSkipped(handled: seq<Event>, e: Event)
    requires Raw(e)
    ensures CorrelationsIn(handled + [e]) == CorrelationsIn(handled)
  {
    assert (handled + [e])[..|handled|] == handled;
  }

  // ----- order of delivery

  /** `handled[k]` correlates `handled[i]` with `handled[j]`: it is delivered after the first and
      before the second, with nothing but correlations between it and the second. */
  ghost predicate DeliveredBetween(handled: seq<Event>, window: nat, i: int, k: int, j: int) {
    && 0 <= i < k < j < |handled| && handled[i].kind != handled[j].kind
    && (handled[i].kind == Log ==> handled[k] == CorrelationEvent(window, handled[i], handled[j]))
    && (handled[j].kind == Log ==> handled[k] == CorrelationEvent(window, handled[j], handled[i]))
    && InWindow(handled[i], handled[j], window)
    && Raw(handled[i]) && Raw(handled[j])
    && forall m :: k <= m < j ==> handled[m].kind == Correlation
  }

  ghost predicate InOrder(handled: seq<Event>, window: nat) {
    forall k :: 0 <= k < |handled| && handled[k].kind == Correlation
      ==> exists i, j :: DeliveredBetween(handled, window, i, k, j)
  }

  ghost predicate BuffersHandled(st: WorldState) {
    && (forall x :: x in st.logs ==> x in st.handled && x.kind == Log)
    && (forall x :: x in st.networks ==> x in st.handled && x.kind == Network)
  }

  lemma {:induction false} RetainSubset(events: seq<Event>, cutoff: nat, x: Event)
    requires x in Retain(events, cutoff)
    ensures x in events && x.timestamp >= cutoff
  {
    if events[0].timestamp < cutoff || x != events[0] {
      assert x in Retain(events[1..], cutoff);
      RetainSubset(events[1..], cutoff, x);
    }
  }

  lemma {:induction false} WithinSubset(events: seq<Event>, e: Event, window: nat, x: Event)
    requires x in Within(events, e, window)
    ensures x in events && InWindow(e, x, window)
  {
    if !InWindow(e, events[0], window) || x != events[0] {
      assert x in Within(events[1..], e, window);
      WithinSubset(events[1..], e, window, x);
    }
  }

  lemma ArrivalKeepsOrder(re: RegexEngine, st: WorldState, e: Event, window: nat)
    requires Raw(e) && Accepted(re, e) && BuffersHandled(st) && InOrder(st.handled, window)
    ensures InOrder(Emitted(re, st, e, window).handled, window)
  {
    var events := CorrelationEvents(NewPairs(st, e, window), window);
    var all := st.handled + (events + [e]);
    assert Emitted(re, st, e, window).handled == all;
    forall k | 0 <= k < |all| && all[k].kind == Correlation
      ensures exists i, j :: DeliveredBetween(all, window, i, k, j)
    {
      if k < |st.handled| {
        var i, j :| DeliveredBetween(st.handled, window, i, k, j);
        DeliveredStays(st.handled, events + [e], window, i, k, j);
      } else {
        var i := NewCorrelationInOrder(st, e, window, k - |st.handled|);
      }
    }
  }

  lemma DeliveredStays(handled: seq<Event>, more: seq<Event>, window: nat, i: int, k: int, j: int)
    requires DeliveredBetween(handled, window, i, k, j)
    ensures DeliveredBetween(handled + more, window, i, k, j)
  {
    assert forall m :: 0 <= m < |handled| ==> (handled + more)[m] == handled[m];
  }

  /** The partner of a new pair was handled before. */
  lemma PartnerHandled(st: WorldState, e: Event, window: nat, c: nat) returns (i: nat)
    requires Raw(e) && BuffersHandled(st) && c < |NewPairs(st, e, window)|
    ensures i < |st.handled| && Raw(st.handled[i]) && st.handled[i].kind != e.kind
    ensures InWindow(st.handled[i], e, window)
    ensures NewPairs(st, e, window)[c] == if e.kind == Log then (e, st.handled[i]) else (st.handled[i], e)
  {
    var partner := Within(Opposite(st, e), e, window)[c];
    WithinSubset(Opposite(st, e), e, window, partner);
    i :| i < |st.handled| && st.handled[i] == partner;
  }

  lemma CorrelationsFollow(pairs: seq<Pair>, window: nat, c: nat)
    requires c < |pairs|
    ensures CorrelationEvents(pairs, window)[c] == CorrelationEvent(window, pairs[c].0, pairs[c].1)
    ensures forall m :: 0 <= m < |pairs| ==> CorrelationEvents(pairs, window)[m].kind == Correlation
  {
  }

  lemma NewCorrelationInOrder(st: WorldState, e: Event, window: nat, c: nat) returns (i: int)
    requires Raw(e) && BuffersHandled(st) && c < |NewPairs(st, e, window)|
    ensures var events := CorrelationEvents(NewPairs(st, e, window), window);
            var all := st.handled + (events + [e]);
            DeliveredBetween(all, window, i, |st.handled| + c, |all| - 1)
  {
    hide NewPairs, CorrelationEvents, CorrelationEvent, BuffersHandled;
    var pairs := NewPairs(st, e, window);
    var events := CorrelationEvents(pairs, window);
    var all := st.handled + (events + [e]);
    i := PartnerHandled(st, e, window, c);
    CorrelationsFollow(pairs, window, c);
    assert all[i] == st.handled[i] && all[|all| - 1] == e && all[|st.handled| + c] == events[c];
    assert forall m :: |st.handled| <= m < |all| - 1 ==> all[m] == events[m - |st.handled|];
  }

  /** The handler sees every correlation after its earlier member and before its later one. */
  lemma {:induction false} HandlerOrder(re: RegexEngine, steps: seq<Step>, window: nat)
    requires RawRun(steps)
    ensures BuffersHandled(Run(re, steps, window)) && InOrder(Run(re, steps, window).handled, window)
  {
    if steps != [] {
      var prefix, s := steps[..|steps| - 1], steps[|steps| - 1];
      assert forall i :: 0 <= i < |prefix| ==> prefix[i] == steps[i];
      HandlerOrder(re, prefix, window);
      var st, st' := Run(re, prefix, window), Run(re, steps, window);
      match s
      case Arrive(e) =>
        if Accepted(re, e) {
          ArrivalKeepsOrder(re, st, e, window);
          assert forall x :: x in st.handled ==> x in st'.handled;
          assert e in st'.handled;
        }
      case Cleanup(now) =>
        forall x | x in st'.logs ensures x in st.logs { RetainSubset(st.logs, Cutoff(now, window), x); }
        forall x | x in st'.networks ensures x in st.networks { RetainSubset(st.networks, Cutoff(now, window), x); }
    }
  }

  // ----- the buffers stay bounded

  lemma {:induction false} BuffersBounded(re: RegexEngine, steps: seq<Step>, window: nat)
    ensures |Run(re, steps, window).logs| <= MAX_BUFFER_SIZE
    ensures |Run(re, steps, window).networks| <= MAX_BUFFER_SIZE
  {
    if steps != [] {
      var prefix, s := steps[..|steps| - 1], steps[|steps| - 1];
      BuffersBounded(re, prefix, window);
      var st := Run(re, prefix, window);
      if s.Cleanup? {
        RetainShrinks(st.logs, Cutoff(s.now, window));
        RetainShrinks(st.networks, Cutoff(s.now, window));
      }
    }
  }

  // ----- soundness: nothing outside the join, nothing twice

  /** A raw event adds its pairs with the other side to the join. */
  lemma JoinGrows(e: Event, logs: seq<Event>, networks: seq<Event>, window: nat)
    requires Raw(e)
    ensures
      var logs', networks' := if e.kind == Log then [e] + logs else logs,
                              if e.kind == Network then [e] + networks else networks;
      Join(logs', networks', window)
      == multiset(Probe(if e.kind == Log then networks else logs, e, e.kind == Log, window))
         + Join(logs, networks, window)
  {
    JoinAddLeft(e, logs, networks, window);
    JoinAddRight(logs, e, networks, window);
  }

  lemma ArrivalIsSound(st: WorldState, e: Event, logs: seq<Event>, networks: seq<Event>, window: nat)
    requires Raw(e)
    requires multiset(st.logs) <= multiset(logs) && multiset(st.networks) <= multiset(networks)
    ensures multiset(NewPairs(st, e, window)) + Join(logs, networks, window)
         <= Join(if e.kind == Log then [e] + logs else logs,
                 if e.kind == Network then [e] + networks else networks, window)
  {
    NewPairsBelow(e, Opposite(st, e), if e.kind == Log then networks else logs, window);
    JoinGrows(e, logs, networks, window);
  }

  lemma BuffersStaySound(re: RegexEngine, st: WorldState, s: Step, logs: seq<Event>, networks: seq<Event>, window: nat)
    requires multiset(st.logs) <= multiset(logs) && multiset(st.networks) <= multiset(networks)
    ensures
      var st' := match s case Arrive(e) => Emitted(re, st, e, window) case Cleanup(now) => Cleaned(st, now, window);
      var takes := s.Arrive? && Accepted(re, s.event);
      && multiset(st'.logs) <= multiset((if takes && s.event.kind == Log then [s.event] else []) + logs)
      && multiset(st'.networks) <= multiset((if takes && s.event.kind == Network then [s.event] else []) + networks)
  {
    hide NewPairs, CorrelationEvents, Accepted, Cutoff;
    if s.Cleanup? {
      RetainShrinks(st.logs, Cutoff(s.now, window));
      RetainShrinks(st.networks, Cutoff(s.now, window));
      assert [] + logs == logs && [] + networks == networks;
    }
  }

  lemma {:induction false} BuffersAreSound(re: RegexEngine, steps: seq<Step>, window: nat)
    ensures multiset(Run(re, steps, window).logs) <= multiset(Accepteds(re, steps, Log))
    ensures multiset(Run(re, steps, window).networks) <= multiset(Accepteds(re, steps, Network))
  {
    hide Emitted, Cleaned, Accepted;
    if steps != [] {
      var prefix, s := steps[..|steps| - 1], steps[|steps| - 1];
      BuffersAreSound(re, prefix, window);
      BuffersStaySound(re, Run(re, prefix, window), s, Accepteds(re, prefix, Log), Accepteds(re, prefix, Network),
          window);
      assert [] + Accepteds(re, prefix, Log) == Accepteds(re, prefix, Log);
      assert [] + Accepteds(re, prefix, Network) == Accepteds(re, prefix, Network);
    }
  }

  /** Whatever is evicted or dropped, the reported pairs are part of the join of all accepted logs
      and networks: each is in the window, and none is reported more often than it occurs. */
  lemma {:induction false} PairsAreSound(re: RegexEngine, steps: seq<Step>, window: nat)
    requires RawRun(steps)
    ensures multiset(RunPairs(re, steps, window))
         <= Join(Accepteds(re, steps, Log), Accepteds(re, steps, Network), window)
  {
    if steps != [] {
      var prefix, s := steps[..|steps| - 1], steps[|steps| - 1];
      assert forall i :: 0 <= i < |prefix| ==> prefix[i] == steps[i];
      PairsAreSound(re, prefix, window);
      BuffersAreSound(re, prefix, window);
      if s.Arrive? && Accepted(re, s.event) {
        ArrivalIsSound(Run(re, prefix, window), s.event,
                       Accepteds(re, prefix, Log), Accepteds(re, prefix, Network), window);
      }
    }
  }

  // ----- completeness: eviction loses nothing that timely events could still match

  function BufferOf(st: WorldState, kind: EventKind): seq<Event> {
    if kind == Log then st.logs else st.networks
  }

  function OtherKind(e: Event): EventKind {
    if e.kind == Log then Network else Log
  }

  /** The accepted events of one kind that found room in their buffer, newest first. */
  ghost function Admitted(re: RegexEngine, steps: seq<Step>, window: nat, kind: EventKind): seq<Event> {
    if steps == [] then []
    else
      var prefix, s := steps[..|steps| - 1], steps[|steps| - 1];
      var before := Admitted(re, prefix, window, kind);
      var st := Run(re, prefix, window);
      if s.Arrive? && s.event.kind == kind && Accepted(re, s.event)
         && |BufferOf(st, kind)| < MAX_BUFFER_SIZE
      then [s.event] + before else before
  }

  /** The pairs an engine that never evicts would report for the same admissions. */
  ghost function AdmittedPairs(re: RegexEngine, steps: seq<Step>, window: nat): seq<Pair> {
    if steps == [] then []
    else
      var prefix, s := steps[..|steps| - 1], steps[|steps| - 1];
      AdmittedPairs(re, prefix, window) +
      if !s.Arrive? || !Accepted(re, s.event) then []
      else Probe(Admitted(re, prefix, window, OtherKind(s.event)), s.event, s.event.kind == Log, window)
  }

  lemma BufferAfterStep(re: RegexEngine, steps: seq<Step>, window: nat, kind: EventKind)
    requires steps != [] && kind in {Log, Network}
    requires var prefix := steps[..|steps| - 1];
             ServesFrom(BufferOf(Run(re, prefix, window), kind), Admitted(re, prefix, window, kind), window,
                 Floor(prefix, window))
    requires var s := steps[|steps| - 1]; s.Cleanup? ==> 2 * window <= s.now < U64
    ensures ServesFrom(BufferOf(Run(re, steps, window), kind), Admitted(re, steps, window, kind), window,
        Floor(steps, window))
  {
    var prefix, s := steps[..|steps| - 1], steps[|steps| - 1];
    var kept, all, floor :=
        BufferOf(Run(re, prefix, window), kind), Admitted(re, prefix, window, kind), Floor(prefix, window);
    match s
    case Cleanup(now) => ServesAfterCleanup(kept, all, window, floor, now);
    case Arrive(e) => ServesAfterPush(kept, all, window, floor, e);
  }

  lemma {:induction false} BuffersServe(re: RegexEngine, steps: seq<Step>, window: nat, kind: EventKind)
    requires Timely(steps, window, AcceptedBy(re)) && kind in {Log, Network}
    ensures ServesFrom(BufferOf(Run(re, steps, window), kind), Admitted(re, steps, window, kind), window,
        Floor(steps, window))
  {
    if steps != [] {
      TimelyPrefix(steps, window, AcceptedBy(re));
      BuffersServe(re, steps[..|steps| - 1], window, kind);
      BufferAfterStep(re, steps, window, kind);
    }
  }

  /** The cleanup timer is unobservable: under the lateness bound the engine reports, in the same
      order, exactly what it would report without evicting anything. */
  lemma {:induction false} EvictionIsUnobservable(re: RegexEngine, steps: seq<Step>, window: nat)
    requires RawRun(steps) && Timely(steps, window, AcceptedBy(re))
    ensures RunPairs(re, steps, window) == AdmittedPairs(re, steps, window)
  {
    if steps != [] {
      var prefix, s := steps[..|steps| - 1], steps[|steps| - 1];
      assert forall i :: 0 <= i < |prefix| ==> prefix[i] == steps[i];
      TimelyPrefix(steps, window, AcceptedBy(re));
      EvictionIsUnobservable(re, prefix, window);
      if s.Arrive? && Accepted(re, s.event) {
        BuffersServe(re, prefix, window, Log);
        BuffersServe(re, prefix, window, Network);
        TimelyArrival(steps, window, AcceptedBy(re));
      }
    }
  }

  lemma {:induction false} PairsGrow(re: RegexEngine, steps: seq<Step>, window: nat, m: nat)
    requires m <= |steps|
    ensures RunPairs(re, steps[..m], window) <= RunPairs(re, steps, window)
  {
    if m < |steps| {
      var prefix := steps[..|steps| - 1];
      assert prefix[..m] == steps[..m];
      PairsGrow(re, prefix, window, m);
    } else {
      assert steps[..m] == steps;
    }
  }

  lemma {:induction false} AdmittedGrows(re: RegexEngine, steps: seq<Step>, window: nat, kind: EventKind, m: nat,
      x: Event)
    requires m <= |steps| && x in Admitted(re, steps[..m], window, kind)
    ensures x in Admitted(re, steps, window, kind)
  {
    if m < |steps| {
      var prefix := steps[..|steps| - 1];
      assert prefix[..m] == steps[..m];
      AdmittedGrows(re, prefix, window, kind, m, x);
    } else {
      assert steps[..m] == steps;
    }
  }

  lemma {:induction false} WithinMember(events: seq<Event>, e: Event, window: nat, x: Event)
    requires x in events && InWindow(e, x, window)
    ensures x in Within(events, e, window)
  {
    if events[0] != x {
      assert x in events[1..];
      WithinMember(events[1..], e, window, x);
    }
  }

  /** The event of step `i` was accepted and found room in its buffer. */
  ghost predicate AdmittedAt(re: RegexEngine, steps: seq<Step>, window: nat, i: nat, x: Event) {
    && i < |steps| && steps[i] == Arrive(x) && Accepted(re, x) && Raw(x)
    && |BufferOf(Run(re, steps[..i], window), x.kind)| < MAX_BUFFER_SIZE
  }

  /** Pair by pair: when the earlier arrival was admitted, an accepted later arrival of the other
      kind within the window is reported with it. */
  lemma AdmittedPairIsReported(re: RegexEngine, steps: seq<Step>, window: nat, i: nat, x: Event, j: nat, y: Event)
    requires RawRun(steps) && Timely(steps, window, AcceptedBy(re))
    requires AdmittedAt(re, steps, window, i, x)
    requires i < j < |steps| && steps[j] == Arrive(y) && Accepted(re, y)
    requires x.kind != y.kind && InWindow(y, x, window)
    ensures (if x.kind == Log then (x, y) else (y, x)) in RunPairs(re, steps, window)
  {
    hide Run, Admitted, AdmittedPairs, RunPairs, Timely;
    AdmittedBefore(re, steps, window, i, x, j);
    TimelyPairs(re, steps, window, j + 1);
    ArrivalIsReported(re, steps, window, j, y, x);
  }

  lemma ArrivalIsReported(re: RegexEngine, steps: seq<Step>, window: nat, j: nat, y: Event, x: Event)
    requires j < |steps| && steps[j] == Arrive(y) && Accepted(re, y)
    requires RunPairs(re, steps[..j + 1], window) == AdmittedPairs(re, steps[..j + 1], window)
    requires x in Admitted(re, steps[..j], window, x.kind)
    requires Raw(x) && Raw(y) && x.kind != y.kind && InWindow(y, x, window)
    ensures (if x.kind == Log then (x, y) else (y, x)) in RunPairs(re, steps, window)
  {
    assert steps[..j + 1][..j] == steps[..j];
    LastArrivalPairs(re, steps[..j + 1], window, x);
    PairsGrow(re, steps, window, j + 1);
  }

  lemma TimelyPairs(re: RegexEngine, steps: seq<Step>, window: nat, m: nat)
    requires m <= |steps| && RawRun(steps) && Timely(steps, window, AcceptedBy(re))
    ensures RunPairs(re, steps[..m], window) == AdmittedPairs(re, steps[..m], window)
  {
    TimelyUpto(steps, window, AcceptedBy(re), m);
    EvictionIsUnobservable(re, steps[..m], window);
  }

  lemma AdmittedBefore(re: RegexEngine, steps: seq<Step>, window: nat, i: nat, x: Event, j: nat)
    requires AdmittedAt(re, steps, window, i, x) && i < j <= |steps|
    ensures x in Admitted(re, steps[..j], window, x.kind)
  {
    assert steps[..j][..i + 1] == steps[..i + 1] && steps[..i + 1][..i] == steps[..i];
    AdmittedGrows(re, steps[..j], window, x.kind, i + 1, x);
  }

  lemma LastArrivalPairs(re: RegexEngine, steps: seq<Step>, window: nat, x: Event)
    requires steps != [] && steps[|steps| - 1].Arrive? && Accepted(re, steps[|steps| - 1].event)
    requires var y := steps[|steps| - 1].event;
             && Raw(x) && Raw(y) && x.kind != y.kind && InWindow(y, x, window)
             && x in Admitted(re, steps[..|steps| - 1], window, x.kind)
    ensures var y := steps[|steps| - 1].event;
            (if x.kind == Log then (x, y) else (y, x)) in AdmittedPairs(re, steps, window)
  {
    var y, admitted := steps[|steps| - 1].event, Admitted(re, steps[..|steps| - 1], window, x.kind);
    var partners := Within(admitted, y, window);
    WithinMember(admitted, y, window, x);
    var k :| 0 <= k < |partners| && partners[k] == x;
    assert WithLeft(y, partners)[k] == (y, x) && WithRight(partners, y)[k] == (x, y);
  }

  lemma TimelyUpto(steps: seq<Step>, window: nat, relevant: Event -> bool, m: nat)
    requires m <= |steps| && Timely(steps, window, relevant)
    ensures Timely(steps[..m], window, relevant)
    ensures RawRun(steps) ==> RawRun(steps[..m])
  {
  }

  // ----- what a full buffer costs

  /** The accepted events of one kind that found their buffer full, newest first. */
  ghost function Dropped(re: RegexEngine, steps: seq<Step>, window: nat, kind: EventKind): seq<Event> {
    if steps == [] then []
    else
      var prefix, s := steps[..|steps| - 1], steps[|steps| - 1];
      var before := Dropped(re, prefix, window, kind);
      if s.Arrive? && s.event.kind == kind && Accepted(re, s.event)
         && |BufferOf(Run(re, prefix, window), kind)| >= MAX_BUFFER_SIZE
      then [s.event] + before else before
  }

  /** No accepted event finds a dropped event of the other kind in its window. */
  ghost predicate NothingMissed(re: RegexEngine, steps: seq<Step>, window: nat) {
    steps == [] ||
    var prefix, s := steps[..|steps| - 1], steps[|steps| - 1];
    && NothingMissed(re, prefix, window)
    && (s.Arrive? && Accepted(re, s.event)
        ==> Within(Dropped(re, prefix, window, OtherKind(s.event)), s.event, window) == [])
  }

  lemma {:induction false} AdmittedOrDropped(re: RegexEngine, steps: seq<Step>, window: nat, kind: EventKind)
    ensures multiset(Accepteds(re, steps, kind))
         == multiset(Admitted(re, steps, window, kind)) + multiset(Dropped(re, steps, window, kind))
  {
    if steps != [] {
      hide Run, Accepted;
      AdmittedOrDropped(re, steps[..|steps| - 1], window, kind);
    }
  }

  lemma ArrivalMisses(re: RegexEngine, prefix: seq<Step>, e: Event, window: nat)
    requires Raw(e)
    ensures
      var other := OtherKind(e);
      var found := multiset(Probe(Admitted(re, prefix, window, other), e, e.kind == Log, window));
      var all := multiset(Probe(Accepteds(re, prefix, other), e, e.kind == Log, window));
      found <= all && |all| == |found| + |Within(Dropped(re, prefix, window, other), e, window)|
  {
    hide Admitted, Accepteds, Dropped, Within;
    var other := OtherKind(e);
    AdmittedOrDropped(re, prefix, window, other);
    ProbeMisses(Accepteds(re, prefix, other), Admitted(re, prefix, window, other), Dropped(re, prefix, window, other),
        e, e.kind == Log, window);
  }

  lemma JoinStep(re: RegexEngine, steps: seq<Step>, window: nat)
    requires RawRun(steps) && steps != []
    ensures
      var prefix, s := steps[..|steps| - 1], steps[|steps| - 1];
      Join(Accepteds(re, steps, Log), Accepteds(re, steps, Network), window)
      == Join(Accepteds(re, prefix, Log), Accepteds(re, prefix, Network), window)
       + if !s.Arrive? || !Accepted(re, s.event) then multiset{}
         else multiset(Probe(Accepteds(re, prefix, OtherKind(s.event)), s.event, s.event.kind == Log, window))
  {
    hide Join, Probe, Accepted;
    var prefix, s := steps[..|steps| - 1], steps[|steps| - 1];
    if s.Arrive? && Accepted(re, s.event) {
      JoinGrows(s.event, Accepteds(re, prefix, Log), Accepteds(re, prefix, Network), window);
    }
  }

  /** What the engine that never evicts reports is part of the join, and all of it exactly when nothing
      was missed. */
  lemma {:induction false} AdmittedPairsMiss(re: RegexEngine, steps: seq<Step>, window: nat)
    requires RawRun(steps)
    ensures
      var pairs, join := multiset(AdmittedPairs(re, steps, window)),
          Join(Accepteds(re, steps, Log), Accepteds(re, steps, Network), window);
      pairs <= join && (|pairs| == |join| <==> NothingMissed(re, steps, window))
  {
    hide Admitted, Dropped, Within, Probe, Accepted, Run;
    if steps != [] {
      hide Join, Accepteds;
      var prefix, s := steps[..|steps| - 1], steps[|steps| - 1];
      assert forall i :: 0 <= i < |prefix| ==> prefix[i] == steps[i];
      AdmittedPairsMiss(re, prefix, window);
      JoinStep(re, steps, window);
      if s.Arrive? && Accepted(re, s.event) {
        var e, other := s.event, OtherKind(s.event);
        var found := Probe(Admitted(re, prefix, window, other), e, e.kind == Log, window);
        ArrivalMisses(re, prefix, e, window);
        BagsGrow(multiset(AdmittedPairs(re, prefix, window)),
            Join(Accepteds(re, prefix, Log), Accepteds(re, prefix, Network), window),
                 multiset(found), multiset(Probe(Accepteds(re, prefix, other), e, e.kind == Log, window)),
                 |Within(Dropped(re, prefix, window, other), e, window)|);
        assert multiset(AdmittedPairs(re, prefix, window) + found)
            == multiset(AdmittedPairs(re, prefix, window)) + multiset(found);
      }
    }
  }

  /** A timely run reports exactly the batch join of all accepted logs and networks, multiplicities
      included, if and only if no accepted event comes within the window of an earlier one of the other
      kind that found its buffer full. */
  lemma TimelyRunIsTheJoinIff(re: RegexEngine, steps: seq<Step>, window: nat)
    requires RawRun(steps) && Timely(steps, window, AcceptedBy(re))
    ensures multiset(RunPairs(re, steps, window))
        == Join(Accepteds(re, steps, Log), Accepteds(re, steps, Network), window)
       <==> NothingMissed(re, steps, window)
  {
    hide Run, Accepteds, Join, NothingMissed, AdmittedPairs, RunPairs;
    EvictionIsUnobservable(re, steps, window);
    AdmittedPairsMiss(re, steps, window);
    SameSizeSame(multiset(AdmittedPairs(re, steps, window)),
        Join(Accepteds(re, steps, Log), Accepteds(re, steps, Network), window));
  }

  lemma BufferAfterArrival(re: RegexEngine, st: WorldState, e: Event, window: nat, kind: EventKind)
    requires Raw(e) && kind in {Log, Network}
    ensures BufferOf(Emitted(re, st, e, window), kind)
         == (if e.kind == kind && Accepted(re, e) && |BufferOf(st, kind)| < MAX_BUFFER_SIZE then [e] else [])
            + BufferOf(st, kind)
  {
    hide CorrelationEvents, NewPairs;
  }

  /** The same event arriving `n` times. */
  function Flood(e: Event, n: nat): (steps: seq<Step>)
    ensures |steps| == n && forall i :: 0 <= i < n ==> steps[i] == Arrive(e)
  {
    if n == 0 then [] else Flood(e, n - 1) + [Arrive(e)]
  }

  lemma NothingBuffered(re: RegexEngine, window: nat, kind: EventKind)
    ensures BufferOf(Run(re, [], window), kind) == []
  {
  }

  lemma RunArrival(re: RegexEngine, prefix: seq<Step>, e: Event, window: nat)
    ensures Run(re, prefix + [Arrive(e)], window) == Emitted(re, Run(re, prefix, window), e, window)
  {
    hide Emitted;
    assert (prefix + [Arrive(e)])[..|prefix|] == prefix;
  }

  lemma {:induction false} FloodFills(re: RegexEngine, e: Event, window: nat, n: nat)
    requires Raw(e) && Accepted(re, e) && n <= MAX_BUFFER_SIZE
    ensures |BufferOf(Run(re, Flood(e, n), window), e.kind)| == n
  {
    hide Run, Emitted, Accepted, BufferOf;
    if n == 0 {
      NothingBuffered(re, window, e.kind);
    } else {
      FloodFills(re, e, window, n - 1);
      RunArrival(re, Flood(e, n - 1), e, window);
      BufferAfterArrival(re, Run(re, Flood(e, n - 1), window), e, window, e.kind);
    }
  }

  /** A run in which a pair is missed, for every accepted event and accepted partner in its window: the
      event arrives once more than the buffer has room for, and then its partner. */
  lemma FullBufferLosesAPair(re: RegexEngine, x: Event, y: Event, window: nat)
    requires Raw(x) && Raw(y) && x.kind != y.kind && Accepted(re, x) && Accepted(re, y) && InWindow(y, x, window)
    ensures
      var steps := Flood(x, MAX_BUFFER_SIZE + 1) + [Arrive(y)];
      && RawRun(steps) && Timely(steps, window, AcceptedBy(re))
      && multiset(RunPairs(re, steps, window))
         != Join(Accepteds(re, steps, Log), Accepteds(re, steps, Network), window)
  {
    hide Run, Accepted, RunPairs, Join, Accepteds;
    var flood := Flood(x, MAX_BUFFER_SIZE + 1);
    var steps := flood + [Arrive(y)];
    assert flood[..MAX_BUFFER_SIZE] == Flood(x, MAX_BUFFER_SIZE);
    FloodFills(re, x, window, MAX_BUFFER_SIZE);
    assert steps[..|flood|] == flood;
    var dropped := Dropped(re, flood, window, x.kind);
    assert dropped[0] == x;
    assert Within(dropped, y, window) != [];
    assert !NothingMissed(re, steps, window);
    TimelyRunIsTheJoinIff(re, steps, window);
  }

  /** Every accepted event finds room when it arrives, however many there are over the whole run. */
  ghost predicate NeverFull(re: RegexEngine, steps: seq<Step>, window: nat) {
    forall i :: 0 <= i < |steps| && steps[i].Arrive? && Accepted(re, steps[i].event)
      ==> |BufferOf(Run(re, steps[..i], window), steps[i].event.kind)| < MAX_BUFFER_SIZE
  }

  lemma NeverFullPrefix(re: RegexEngine, steps: seq<Step>, window: nat)
    requires steps != [] && NeverFull(re, steps, window)
    ensures NeverFull(re, steps[..|steps| - 1], window)
  {
    hide Run, Accepted;
    var prefix := steps[..|steps| - 1];
    forall i | 0 <= i < |prefix| ensures prefix[i] == steps[i] && prefix[..i] == steps[..i] {
    }
  }

  lemma {:induction false} NothingDropped(re: RegexEngine, steps: seq<Step>, window: nat, kind: EventKind)
    requires RawRun(steps) && NeverFull(re, steps, window)
    ensures Dropped(re, steps, window, kind) == [] && NothingMissed(re, steps, window)
  {
    if steps != [] {
      hide Run, Accepted;
      var prefix, s := steps[..|steps| - 1], steps[|steps| - 1];
      assert forall i :: 0 <= i < |prefix| ==> prefix[i] == steps[i];
      NeverFullPrefix(re, steps, window);
      NothingDropped(re, prefix, window, kind);
      if s.Arrive? {
        NothingDropped(re, prefix, window, OtherKind(s.event));
      }
    }
  }

  /** In particular, when no event ever finds its buffer full, a timely run reports exactly the batch
      join. */
  lemma TimelyRunIsTheJoin(re: RegexEngine, steps: seq<Step>, window: nat)
    requires RawRun(steps) && Timely(steps, window, AcceptedBy(re)) && NeverFull(re, steps, window)
    ensures multiset(RunPairs(re, steps, window))
         == Join(Accepteds(re, steps, Log), Accepteds(re, steps, Network), window)
  {
    hide Run, Accepteds, Join, NothingMissed, RunPairs, NeverFull;
    NothingDropped(re, steps, window, Log);
    TimelyRunIsTheJoinIff(re, steps, window);
  }

  // ----- what full buffers and sweeps cost over any run

  /** The accepted events of one kind that are gone: they found their buffer full, or a sweep evicted
      them. */
  ghost function Lost(re: RegexEngine, steps: seq<Step>, window: nat, kind: EventKind): seq<Event> {
    if steps == [] then []
    else
      var prefix, s := steps[..|steps| - 1], steps[|steps| - 1];
      var before, buffer := Lost(re, prefix, window, kind), BufferOf(Run(re, prefix, window), kind);
      match s
      case Arrive(e) =>
        if e.kind == kind && Accepted(re, e) && |buffer| >= MAX_BUFFER_SIZE then [e] + before else before
      case Cleanup(now) => before + Evicted(buffer, Cutoff(now, window))
  }

  lemma KeptOrLostStep(re: RegexEngine, steps: seq<Step>, window: nat, kind: EventKind)
    requires steps != [] && RawRun(steps) && kind in {Log, Network}
    requires var prefix := steps[..|steps| - 1];
             multiset(Accepteds(re, prefix, kind))
             == multiset(BufferOf(Run(re, prefix, window), kind)) + multiset(Lost(re, prefix, window, kind))
    ensures multiset(Accepteds(re, steps, kind))
         == multiset(BufferOf(Run(re, steps, window), kind)) + multiset(Lost(re, steps, window, kind))
  {
    hide Emitted, Accepted;
    var prefix, s := steps[..|steps| - 1], steps[|steps| - 1];
    var buffer := BufferOf(Run(re, prefix, window), kind);
    match s
    case Arrive(e) => BufferAfterArrival(re, Run(re, prefix, window), e, window, kind);
    case Cleanup(now) => RetainedOrEvicted(buffer, Cutoff(now, window));
  }

  lemma {:induction false} KeptOrLost(re: RegexEngine, steps: seq<Step>, window: nat, kind: EventKind)
    requires RawRun(steps) && kind in {Log, Network}
    ensures multiset(Accepteds(re, steps, kind))
         == multiset(BufferOf(Run(re, steps, window), kind)) + multiset(Lost(re, steps, window, kind))
  {
    if steps != [] {
      var prefix := steps[..|steps| - 1];
      assert forall i :: 0 <= i < |prefix| ==> prefix[i] == steps[i];
      KeptOrLost(re, prefix, window, kind);
      KeptOrLostStep(re, steps, window, kind);
    }
  }

  /** No accepted event finds a lost event of the other kind in its window. */
  ghost predicate NothingLost(re: RegexEngine, steps: seq<Step>, window: nat) {
    steps == [] ||
    var prefix, s := steps[..|steps| - 1], steps[|steps| - 1];
    && NothingLost(re, prefix, window)
    && (s.Arrive? && Accepted(re, s.event)
        ==> Within(Lost(re, prefix, window, OtherKind(s.event)), s.event, window) == [])
  }

  lemma ArrivalLoses(re: RegexEngine, prefix: seq<Step>, e: Event, window: nat)
    requires RawRun(prefix) && Raw(e)
    ensures
      var found := multiset(NewPairs(Run(re, prefix, window), e, window));
      var all := multiset(Probe(Accepteds(re, prefix, OtherKind(e)), e, e.kind == Log, window));
      found <= all && |all| == |found| + |Within(Lost(re, prefix, window, OtherKind(e)), e, window)|
  {
    hide Accepteds, Lost, Within, Run, Probe;
    var other := OtherKind(e);
    KeptOrLost(re, prefix, window, other);
    ProbeMisses(Accepteds(re, prefix, other), BufferOf(Run(re, prefix, window), other), Lost(re, prefix, window, other),
        e, e.kind == Log, window);
  }

  lemma {:induction false} PairsMiss(re: RegexEngine, steps: seq<Step>, window: nat)
    requires RawRun(steps)
    ensures
      var pairs := multiset(RunPairs(re, steps, window));
      var join := Join(Accepteds(re, steps, Log), Accepteds(re, steps, Network), window);
      pairs <= join && (|pairs| == |join| <==> NothingLost(re, steps, window))
  {
    hide Lost, Within, Probe, Accepted, Run, NewPairs;
    if steps != [] {
      hide Join, Accepteds;
      var prefix, s := steps[..|steps| - 1], steps[|steps| - 1];
      assert forall i :: 0 <= i < |prefix| ==> prefix[i] == steps[i];
      PairsMiss(re, prefix, window);
      JoinStep(re, steps, window);
      if s.Arrive? && Accepted(re, s.event) {
        var e, other := s.event, OtherKind(s.event);
        var found := NewPairs(Run(re, prefix, window), e, window);
        ArrivalLoses(re, prefix, e, window);
        BagsGrow(multiset(RunPairs(re, prefix, window)),
                 Join(Accepteds(re, prefix, Log), Accepteds(re, prefix, Network), window),
                 multiset(found), multiset(Probe(Accepteds(re, prefix, other), e, e.kind == Log, window)),
                 |Within(Lost(re, prefix, window, other), e, window)|);
        assert multiset(RunPairs(re, prefix, window) + found)
            == multiset(RunPairs(re, prefix, window)) + multiset(found);
      }
    }
  }

  /** Over every run, with events as late and clocks as odd as they come: the reported pairs are the batch
      join if and only if no accepted event comes within the window of an earlier one of the other kind
      that was dropped or evicted. */
  lemma RunIsTheJoinIff(re: RegexEngine, steps: seq<Step>, window: nat)
    requires RawRun(steps)
    ensures multiset(RunPairs(re, steps, window))
        == Join(Accepteds(re, steps, Log), Accepteds(re, steps, Network), window)
       <==> NothingLost(re, steps, window)
  {
    hide Run, Accepteds, Join, NothingLost, RunPairs;
    PairsMiss(re, steps, window);
    SameSizeSame(multiset(RunPairs(re, steps, window)),
        Join(Accepteds(re, steps, Log), Accepteds(re, steps, Network), window));
  }
}
