/** The doubly linked event list and the request list of a queue (mbm/mbm-ril/u300-ril.c:119-139, 168-231,
    617-656, 1168-1187). The `prev` of the first node is left stale by a removal, and is never read. */
module EventList {
  import opened Basics
  import opened EventQueue
  import opened Lists

  class RILEvent {
    const event: Event
    var next: RILEvent?
    var prev: RILEvent?

    constructor (e: Event)
      ensures event == e && next == null && prev == null
    {
      event, next, prev := e, null, null;
    }
  }

  /** Each node points to the next, and each but the first to the one before. */
  ghost predicate Linked(head: RILEvent?, nodes: seq<RILEvent>)
    reads nodes
  {
    && (forall i, j | 0 <= i < j < |nodes| :: nodes[i] != nodes[j])
    && (if nodes == [] then head == null else head == nodes[0] && nodes[|nodes| - 1].next == null)
    && (forall i | 0 <= i < |nodes| - 1 :: nodes[i].next == nodes[i + 1])
    && (forall i | 0 < i < |nodes| :: nodes[i].prev == nodes[i - 1])
  }

  lemma LastNode(head: RILEvent?, nodes: seq<RILEvent>, k: nat)
    requires Linked(head, nodes) && k < |nodes|
    ensures nodes[k].next == null <==> k == |nodes| - 1
  {
    if k < |nodes| - 1 {
      assert nodes[k].next == nodes[k + 1];
    }
  }

  function EventsOf(nodes: seq<RILEvent>): (r: seq<Event>)
    ensures |r| == |nodes| && forall i | 0 <= i < |nodes| :: r[i] == nodes[i].event
  {
    if nodes == [] then [] else [nodes[0].event] + EventsOf(nodes[1..])
  }

  class RequestQueue {
    var eventList: RILEvent?
    var requestList: Node?<int>
    ghost var events: seq<RILEvent>
    ghost var requests: seq<Node<int>>

    ghost predicate Valid()
      reads this, events, requests
    {
      Linked(eventList, events) && Chained(requestList, requests)
    }

    constructor ()
      ensures Valid() && events == [] && requests == []
    {
      eventList, requestList, events, requests := null, null, [], [];
    }

    /** e goes before the k-th node, which is not the first. */
    method InsertBefore(tmp: RILEvent, e: RILEvent, ghost k: nat, ghost last: RILEvent)
      requires Linked(eventList, events) && 0 < k < |events| && events[k] == tmp && e !in events && e.next == null
      requires last == events[k - 1]
      modifies this`events, tmp`prev, last`next, e
      ensures Linked(eventList, events) && events == old(events)[..k] + [e] + old(events)[k..]
    {
      var before := tmp.prev;
      assert before == events[k - 1] && before != tmp;
      before.next := e;
      e.prev := before;
      tmp.prev := e;
      e.next := tmp;
      ghost var was := events;
      events := was[..k] + [e] + was[k..];
      Placed(was, e, k, events);
      forall i | 0 <= i < |events| - 1 ensures events[i].next == events[i + 1] {
        if i < k - 1 {
          assert was[i].next == old(was[i].next) == was[i + 1];
        } else if i > k {
          assert was[i - 1].next == old(was[i - 1].next) == was[i];
        }
      }
      forall i | 0 < i < |events| ensures events[i].prev == events[i - 1] {
        if i < k {
          assert was[i].prev == old(was[i].prev) == was[i - 1];
        } else if i > k + 1 {
          assert was[i - 1].prev == old(was[i - 1].prev) == was[i - 2];
        }
      }
    }

    /** Where the nodes are with e in place k. */
    lemma Placed(was: seq<RILEvent>, e: RILEvent, k: nat, now: seq<RILEvent>)
      requires k <= |was| && e !in was && now == was[..k] + [e] + was[k..]
      ensures |now| == |was| + 1 && now[k] == e
      ensures forall i | 0 <= i < k :: now[i] == was[i]
      ensures forall i | k < i < |now| :: now[i] == was[i - 1]
      ensures (forall i, j | 0 <= i < j < |was| :: was[i] != was[j]) ==>
                forall i, j | 0 <= i < j < |now| :: now[i] != now[j]
    {
    }

    method InsertFirst(e: RILEvent, ghost first: RILEvent)
      requires Linked(eventList, events) && events != [] && e !in events && e.next == null
      requires first == eventList
      modifies this`events, this`eventList, first`prev, e
      ensures Linked(eventList, events) && events == [e] + old(events)
    {
      e.next := eventList;
      eventList.prev := e;
      eventList := e;
      events := [e] + events;
    }

    method InsertLast(tmp: RILEvent, e: RILEvent)
      requires Linked(eventList, events) && events != [] && tmp == events[|events| - 1] && e !in events
      requires e.next == null
      modifies this`events, tmp`next, e
      ensures Linked(eventList, events) && events == old(events) + [e]
    {
      tmp.next := e;
      e.prev := tmp;
      events := events + [e];
    }

    /** The walk through the list: up to the first event that is later, or else to the last event. */
    method FindPlace(time: Timespec) returns (tmp: RILEvent, later: bool, ghost k: nat)
      requires Linked(eventList, events) && eventList != null && !Less(time, eventList.event.time)
      ensures k < |events| && tmp == events[k]
      ensures forall i | 0 <= i < k :: !Less(time, events[i].event.time)
      ensures if later then k > 0 && Less(time, tmp.event.time)
              else k == |events| - 1 && !Less(time, tmp.event.time)
    {
      hide Less;
      tmp, later, k := eventList, false, 0;
      while true
        invariant k < |events| && tmp == events[k]
        invariant forall i | 0 <= i < k :: !Less(time, events[i].event.time)
        invariant k == 0 ==> !Less(time, tmp.event.time)
        decreases |events| - k
      {
        if Less(time, tmp.event.time) {
          later := true;
          return;
        } else if tmp.next == null {
          LastNode(eventList, events, k);
          return;
        }
        tmp, k := tmp.next, k + 1;
      }
    }

    /** The list part of enqueueRILEvent: the event goes where the sorted sequence has it. */
    method Enqueue(e: RILEvent)
      requires Valid() && e !in events && e.next == null
      modifies this`eventList, this`events, events, e
      ensures Linked(eventList, events) && EventsOf(events) == Insert(EventsOf(old(events)), e.event)
      ensures forall n <- events :: n == e || n in old(events)
    {
      hide Insert, Less, EventsOf, Chained;
      if eventList == null {
        eventList, events := e, [e];
        InsertedAt([], e, 0, events);
      } else if Less(e.event.time, eventList.event.time) {
        InsertFirst(e, eventList);
        InsertedAt(old(events), e, 0, events);
      } else {
        ghost var k;
        var tmp, later;
        tmp, later, k := FindPlace(e.event.time);
        hide Linked;
        if later {
          InsertBefore(tmp, e, k, events[k - 1]);
          InsertedAt(old(events), e, k, events);
        } else {
          InsertLast(tmp, e);
          InsertedAt(old(events), e, k + 1, events);
        }
      }
    }

    /** Nodes in place k, and so its event. */
    lemma InsertedAt(before: seq<RILEvent>, e: RILEvent, k: nat, after: seq<RILEvent>)
      requires k <= |before| && after == before[..k] + [e] + before[k..]
      requires forall i | 0 <= i < k :: !Less(e.event.time, before[i].event.time)
      requires k < |before| ==> Less(e.event.time, before[k].event.time)
      ensures EventsOf(after) == Insert(EventsOf(before), e.event)
      ensures forall n <- after :: n == e || n in before
    {
      hide Less;
      EventsOfParts(before, e, k, after);
      InsertIsAt(EventsOf(before), e.event, k);
      hide Insert, EventsOf;
    }

    lemma EventsOfParts(before: seq<RILEvent>, e: RILEvent, k: nat, after: seq<RILEvent>)
      requires k <= |before| && after == before[..k] + [e] + before[k..]
      ensures EventsOf(after) == EventsOf(before)[..k] + [e.event] + EventsOf(before)[k..]
    {
      hide EventsOf;
    }

    /** The event part of a turn of queueRunner. */
    method DequeueEvent(now: Timespec) returns (e: RILEvent?)
      requires Valid()
      modifies this`eventList, this`events
      ensures Valid()
      ensures var q := EventsOf(old(events));
              if Due(q, now) then e != null && e.event == q[0] && EventsOf(events) == q[1..]
              else e == null && events == old(events)
    {
      e := null;
      if eventList != null && Less(eventList.event.time, now) {
        e := eventList;
        eventList := e.next;
        events := events[1..];
      }
    }

    /** onRequest: the request goes to the end of its list. */
    method OnRequest(r: Node<int>)
      requires Valid() && r !in requests && r.next == null
      modifies this`requestList, this`requests, requests
      ensures Chained(requestList, requests) && requests == old(requests) + [r]
      ensures ValuesOf(requests) == ValuesOf(old(requests)) + [r.value]
    {
      hide ValuesOf, Linked;
      if requestList == null {
        requestList := r;
      } else {
        var l := requestList;
        ghost var k := 0;
        while l.next != null
          invariant k < |requests| && l == requests[k]
          decreases |requests| - k
        {
          l, k := l.next, k + 1;
        }
        LastOf(requestList, requests, k);
        l.next := r;
      }
      requests := requests + [r];
      ValuesSnoc(old(requests), r);
    }

    method DequeueRequest() returns (r: Node?<int>)
      requires Valid()
      modifies this`requestList, this`requests
      ensures Valid()
      ensures if old(requests) == [] then r == null && requests == []
              else r != null && [r.value] + ValuesOf(requests) == ValuesOf(old(requests))
    {
      r := null;
      if requestList != null {
        r := requestList;
        requestList := r.next;
        requests := requests[1..];
      }
    }
  }
}
