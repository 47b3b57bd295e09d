/** The time-based correlation engine and event emission. Emitting a log or network event consults
    the engine, which emits a correlation event for every partner in the window, through the same
    entry point, before the event itself is buffered and handed to the handler. */
module TimeCorrelation {
  import opened Values
  import opened FilterEngine
  import opened EventBuffers
  import opened BandJoin

  const MAX_BUFFER_SIZE: nat := 10000

  /** The world's counters, the engine's buffers (newest first) and what the handler was given. */
  datatype WorldState = WorldState(
    processed: nat,
    correlated: nat,
    found: nat,
    logs: seq<Event>,
    networks: seq<Event>,
    handled: seq<Event>)

  const EMPTY_WORLD := WorldState(0, 0, 0, [], [], [])

  predicate Raw(e: Event) {
    e.kind == Log || e.kind == Network
  }

  predicate Accepted(re: RegexEngine, e: Event) {
    e.inputFilter == None || Matches(re, e.inputFilter.value, e)
  }

  function CorrelationEvent(window: nat, log: Event, network: Event): Event {
    var base := map[
                  "correlation_type" := JString("time_based"),
                  "window_ms" := JInt(window / NS_PER_MS),
                  "time_diff_ms" := JReal((log.timestamp - network.timestamp) as real / 1000000.0)];
    var withLog := if log.data.Some? then base["log" := log.data.value] else base;
    var withBoth := if network.data.Some? then withLog["network" := network.data.value] else withLog;
    Event(Correlation, log.timestamp, None, Some(JObject(withBoth)))
  }

  // ----- the effect of one emission, in closed form

  function Opposite(st: WorldState, e: Event): seq<Event> {
    if e.kind == Log then st.networks else if e.kind == Network then st.logs else []
  }

  /** The (log, network) pairs the arrival of `e` completes. */
  function NewPairs(st: WorldState, e: Event, window: nat): seq<Pair> {
    Probe(Opposite(st, e), e, e.kind == Log, window)
  }

  function CorrelationEvents(pairs: seq<Pair>, window: nat): (events: seq<Event>)
    ensures |events| == |pairs|
  {
    seq(|pairs|, i requires 0 <= i < |pairs| => CorrelationEvent(window, pairs[i].0, pairs[i].1))
  }

  function Deliver(st: WorldState, pairs: seq<Pair>, window: nat): WorldState {
    st.(processed := st.processed + |pairs|,
        correlated := st.correlated + |pairs|,
        found := st.found + |pairs|,
        handled := st.handled + CorrelationEvents(pairs, window))
  }

  lemma DeliverNone(st: WorldState, window: nat)
    ensures Deliver(st, [], window) == st
  {
    assert st.handled + CorrelationEvents([], window) == st.handled;
  }

  lemma DeliverOneMore(st: WorldState, pairs: seq<Pair>, p: Pair, window: nat)
    ensures Deliver(Deliver(st, pairs, window), [p], window) == Deliver(st, pairs + [p], window)
  {
    assert CorrelationEvents(pairs + [p], window) == CorrelationEvents(pairs, window) + CorrelationEvents([p], window);
  }

  function Buffered(st: WorldState, e: Event): WorldState {
    if e.kind == Log && |st.logs| < MAX_BUFFER_SIZE then st.(logs := [e] + st.logs)
    else if e.kind == Network && |st.networks| < MAX_BUFFER_SIZE then st.(networks := [e] + st.networks)
    else st
  }

  function Processed(st: WorldState, e: Event, window: nat): WorldState {
    Buffered(Deliver(st, NewPairs(st, e, window), window), e)
  }

  function Emitted(re: RegexEngine, st: WorldState, e: Event, window: nat): WorldState {
    if !Accepted(re, e) then st
    else
      var done := Processed(st.(processed := st.processed + 1), e, window);
      done.(handled := done.handled + [e])
  }

  function Cleaned(st: WorldState, now: nat, window: nat): WorldState {
    var cutoff := Cutoff(now, window);
    st.(logs := Retain(st.logs, cutoff), networks := Retain(st.networks, cutoff))
  }

  // ----- the imperative engine

  class World {
    const regex: RegexEngine
    var windowNs: nat
    var eventsProcessed: nat
    var eventsCorrelated: nat
    var correlationsFound: nat
    const logEvents: EventBuffer
    const networkEvents: EventBuffer
    var handled: seq<Event>  // the calls of the event handler, in order

    ghost predicate Valid()
      reads logEvents, logEvents.Repr, networkEvents, networkEvents.Repr
    {
      && logEvents.Valid() && networkEvents.Valid()
      && logEvents.Repr !! networkEvents.Repr && this !in logEvents.Repr + networkEvents.Repr
    }

    ghost function State(): WorldState
      reads this, logEvents, networkEvents
    {
      WorldState(eventsProcessed, eventsCorrelated, correlationsFound,
                 logEvents.Events(), networkEvents.Events(), handled)
    }

    /** A world after it was opened: its engine exists and joins over the given window. */
    constructor (regex: RegexEngine, windowNs: nat)
      ensures Valid() && State() == EMPTY_WORLD && this.regex == regex && this.windowNs == windowNs
    {
      this.regex, this.windowNs := regex, windowNs;
      eventsProcessed, eventsCorrelated, correlationsFound, handled := 0, 0, 0, [];
      logEvents := new EventBuffer();
      networkEvents := new EventBuffer();
    }

    /** nblex_event_emit */
    method Emit(event: Event)
      requires Valid()
      modifies this, if Raw(event) then {logEvents, networkEvents} else {}
      ensures Valid() && windowNs == old(windowNs)
      ensures State() == Emitted(regex, old(State()), event, windowNs)
      decreases Raw(event), 2
    {
      hide Processed, Matches, EventBuffer.Valid;
      if event.inputFilter.Some? && !Matches(regex, event.inputFilter.value, event) {
        return;
      }
      eventsProcessed := eventsProcessed + 1;
      ProcessEvent(event);
      handled := handled + [event];
    }

    /** nblex_correlation_process_event */
    method ProcessEvent(event: Event)
      requires Valid()
      modifies this, if Raw(event) then {logEvents, networkEvents} else {}
      ensures Valid() && windowNs == old(windowNs)
      ensures State() == Processed(old(State()), event, windowNs)
      decreases Raw(event), 1
    {
      hide NewPairs, Deliver, EventBuffer.Valid;
      CheckEvent(event);
      if event.kind == Log {
        AddToBuffer(logEvents, event);
      } else if event.kind == Network {
        AddToBuffer(networkEvents, event);
      }
    }

    /** correlation_check_event: walks the opposite buffer while emitting. */
    method CheckEvent(event: Event)
      requires Valid()
      modifies this
      ensures windowNs == old(windowNs)
      ensures State() == Deliver(old(State()), NewPairs(old(State()), event, windowNs), windowNs)
      decreases Raw(event), 0
    {
      hide Deliver, CorrelationEvent, CorrelationEvents;
      if !Raw(event) {
        DeliverNone(State(), windowNs);
        return;
      }
      var buffer := if event.kind == Log then networkEvents else logEvents;
      var entry := buffer.head;
      ghost var before := State();
      ghost var entries := buffer.Events();
      ghost var k := 0;
      DeliverNone(before, windowNs);
      while entry != null
        invariant windowNs == old(windowNs) && k <= |entries|
        invariant entry == if k < |entries| then buffer.nodes[k] else null
        invariant State() == Deliver(before, Probe(entries[..k], event, event.kind == Log, windowNs), windowNs)
        decreases |entries| - k
      {
        var other := entry.event;
        assert entries[..k + 1] == entries[..k] + [other];
        ProbeAppend(entries[..k], other, event, event.kind == Log, windowNs);
        assert buffer.nodes[k].next == if k + 1 < |entries| then buffer.nodes[k + 1] else null;
        if Near(event.timestamp, other.timestamp, windowNs) {
          var pair := if event.kind == Log then (event, other) else (other, event);
          Report(pair);
          DeliverOneMore(before, Probe(entries[..k], event, event.kind == Log, windowNs), pair, windowNs);
        } else {
          assert Probe(entries[..k], event, event.kind == Log, windowNs) + []
              == Probe(entries[..k], event, event.kind == Log, windowNs);
        }
        entry := entry.next;
        k := k + 1;
      }
      assert entries[..k] == entries;
    }

    /** The body of a match in correlation_check_event: count the correlation and emit its event. */
    method Report(pair: Pair)
      requires Valid()
      modifies this
      ensures windowNs == old(windowNs)
      ensures State() == Deliver(old(State()), [pair], windowNs)
      decreases false, 3
    {
      correlationsFound := correlationsFound + 1;
      eventsCorrelated := eventsCorrelated + 1;
      Emit(CorrelationEvent(windowNs, pair.0, pair.1));
      assert CorrelationEvents([pair], windowNs)[0] == CorrelationEvent(windowNs, pair.0, pair.1);
    }

    /** add_to_buffer: a full buffer drops the event. */
    static method AddToBuffer(buffer: EventBuffer, event: Event)
      requires buffer.Valid()
      modifies buffer
      ensures buffer.Valid() && fresh(buffer.Repr - old(buffer.Repr))
      ensures buffer.Events() == if |old(buffer.Events())| < MAX_BUFFER_SIZE
                                 then [event] + old(buffer.Events()) else old(buffer.Events())
    {
      if buffer.count >= MAX_BUFFER_SIZE {
        return;
      }
      buffer.Push(event);
    }

    /** cleanup_timer_cb, at clock `now` */
    method CleanupTimer(now: nat)
      requires Valid()
      modifies logEvents.Repr, networkEvents.Repr
      ensures Valid() && State() == Cleaned(old(State()), now, windowNs)
    {
      var cutoff := Cutoff(now, windowNs);
      logEvents.RemoveOlder(cutoff);
      networkEvents.RemoveOlder(cutoff);
    }
  }
}
