/** The singly linked event buffers used by both correlators: insertion at the head, and removal
    of old entries in one pass that rewrites the link leading to each removed entry. */
module EventBuffers {
  import opened Values

  /** The entries at or after `cutoff`, in their order. */
  function Retain(events: seq<Event>, cutoff: nat): seq<Event> {
    if events == [] then []
    else if events[0].timestamp < cutoff then Retain(events[1..], cutoff)
    else [events[0]] + Retain(events[1..], cutoff)
  }

  lemma {:induction false} RetainAppend(a: seq<Event>, b: seq<Event>, cutoff: nat)
    ensures Retain(a + b, cutoff) == Retain(a, cutoff) + Retain(b, cutoff)
  {
    if a == [] {
      assert a + b == b;
    } else {
      assert (a + b)[1..] == a[1..] + b;
      RetainAppend(a[1..], b, cutoff);
    }
  }

  class BufferEntry {
    const event: Event
    var next: BufferEntry?

    constructor (event: Event, next: BufferEntry?)
      ensures this.event == event && this.next == next
    {
      this.event := event;
      this.next := next;
    }
  }

  class EventBuffer {
    var head: BufferEntry?
    var count: nat
    ghost var nodes: seq<BufferEntry>  // the entries reachable from head, in order
    ghost var Repr: set<object>

    ghost predicate Valid()
      reads this, Repr
      ensures Valid() ==> this in Repr
    {
      && this in Repr
      && (forall i :: 0 <= i < |nodes| ==> nodes[i] in Repr)
      && count == |nodes|
      && head == (if nodes == [] then null else nodes[0])
      && (forall i {:trigger nodes[i].next} ::
          0 <= i < |nodes| ==> nodes[i].next == if i + 1 < |nodes| then nodes[i + 1] else null)
      && (forall i, j :: 0 <= i < j < |nodes| ==> nodes[i] != nodes[j])
    }

    static ghost function EventsOf(entries: seq<BufferEntry>): (events: seq<Event>)
      ensures |events| == |entries|
      ensures forall i :: 0 <= i < |entries| ==> events[i] == entries[i].event
    {
      seq(|entries|, i requires 0 <= i < |entries| => entries[i].event)
    }

    ghost function Events(): (events: seq<Event>)
      reads this
      ensures |events| == |nodes|
    {
      EventsOf(nodes)
    }

    constructor ()
      ensures Valid() && Events() == [] && fresh(Repr)
    {
      head, count, nodes, Repr := null, 0, [], {this};
    }

    method Push(event: Event)
      requires Valid()
      modifies this
      ensures Valid() && fresh(Repr - old(Repr))
      ensures Events() == [event] + old(Events())
    {
      var entry := new BufferEntry(event, head);
      nodes, Repr := [entry] + nodes, Repr + {entry};
      head, count := entry, count + 1;
      forall i | 0 <= i < |nodes|
        ensures nodes[i].next == if i + 1 < |nodes| then nodes[i + 1] else null
      {
        assert i > 0 ==> nodes[i] == old(nodes)[i - 1];
        assert i + 1 < |nodes| ==> nodes[i + 1] == old(nodes)[i];
      }
    }

    /** Rewrites the link that leads to `entry`, which is `previous`'s, or the head when null. */
    method Unlink(previous: BufferEntry?, entry: BufferEntry, ghost k: nat)
      requires Valid() && k < |nodes| && entry == nodes[k]
      requires previous == if k == 0 then null else nodes[k - 1]
      modifies Repr
      ensures Valid() && Repr == old(Repr) && nodes == old(nodes)[..k] + old(nodes)[k + 1..]
      ensures entry.next == old(entry.next) == if k < |nodes| then nodes[k] else null
    {
      assert entry.next == if k + 1 < |nodes| then nodes[k + 1] else null;
      if previous == null {
        head := entry.next;
      } else {
        assert previous == nodes[k - 1];
        previous.next := entry.next;
      }
      nodes := nodes[..k] + nodes[k + 1..];
      count := count - 1;
      forall i | 0 <= i < |nodes|
        ensures nodes[i].next == if i + 1 < |nodes| then nodes[i + 1] else null
      {
        var j := if i < k then i else i + 1;
        assert nodes[i] == old(nodes)[j]
            && old(nodes[j].next) == if j + 1 < |old(nodes)| then old(nodes)[j + 1] else null;
      }
    }

    /** One pass that unlinks every entry older than `cutoff` and keeps the others in place. */
    method RemoveOlder(cutoff: nat)
      requires Valid()
      modifies Repr
      ensures Valid() && Repr == old(Repr) && Events() == Retain(old(Events()), cutoff)
    {
      var previous: BufferEntry? := null;
      var entry := head;
      ghost var all, kept, done := nodes, 0, 0;
      while entry != null
        invariant Valid() && Repr == old(Repr) && kept <= |nodes|
        invariant entry == if kept < |nodes| then nodes[kept] else null
        invariant previous == if kept == 0 then null else nodes[kept - 1]
        invariant Swept(all, nodes, kept, done, cutoff)
        decreases |all| - done
      {
        SweepNext(all, nodes, kept, done, cutoff);
        assert entry == nodes[kept] && nodes[kept].next == if kept + 1 < |nodes| then nodes[kept + 1] else null;
        if entry.event.timestamp < cutoff {
          Unlink(previous, entry, kept);
          entry := entry.next;
        } else {
          previous, entry := entry, entry.next;
          kept := kept + 1;
        }
        done := done + 1;
      }
      assert nodes[..kept] == nodes && all[..done] == all;
    }

    /** The first `done` of all entries were visited; `kept` of them stay, the rest still follow. */
    static ghost predicate Swept(all: seq<BufferEntry>, now: seq<BufferEntry>, kept: nat, done: nat, cutoff: nat) {
      && kept <= |now| && done <= |all| && now[kept..] == all[done..]
      && EventsOf(now[..kept]) == Retain(EventsOf(all[..done]), cutoff)
    }

    static lemma SweepNext(all: seq<BufferEntry>, now: seq<BufferEntry>, kept: nat, done: nat, cutoff: nat)
      requires Swept(all, now, kept, done, cutoff) && kept < |now|
      ensures done < |all|
      ensures if now[kept].event.timestamp < cutoff
        then Swept(all, now[..kept] + now[kept + 1..], kept, done + 1, cutoff)
        else Swept(all, now, kept + 1, done + 1, cutoff)
    {
      assert done < |all| && now[kept..][1..] == all[done..][1..] && now[kept] == now[kept..][0] == all[done];
      var without := now[..kept] + now[kept + 1..];
      assert without[kept..] == now[kept + 1..] && without[..kept] == now[..kept];
      assert EventsOf(all[..done + 1]) == EventsOf(all[..done]) + [now[kept].event];
      assert EventsOf(now[..kept + 1]) == EventsOf(now[..kept]) + [now[kept].event];
      RetainAppend(EventsOf(all[..done]), [now[kept].event], cutoff);
    }
  }
}
