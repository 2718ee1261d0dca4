/** The time-sorted event list of the radio interface (mbm/mbm-ril/u300-ril.c:168-231, 1168-1179) as a
    sequence: where an event goes, what fires, and what that means over whole runs. */
module EventQueue {
  import opened Basics

  const NANOS := 1000000000

  datatype Timespec = Timespec(sec: int, nsec: int)
  {
    function Nanos(): int {
      sec * NANOS + nsec
    }

    /** As clock_gettime has it. */
    predicate Normal() {
      0 <= nsec < NANOS
    }
  }

  /** `timespec_cmp(a, b, <)` */
  predicate Less(a: Timespec, b: Timespec) {
    if a.sec == b.sec then a.nsec < b.nsec else a.sec < b.sec
  }

  /** The absolute time of an event; exactly a second's worth of nanoseconds is left as it is. */
  function AbsTime(now: Timespec, relative: Timespec): Timespec {
    var t := Timespec(now.sec + relative.sec, now.nsec + relative.nsec);
    if t.nsec > NANOS then Timespec(t.sec + 1, t.nsec - NANOS) else t
  }

  /** It is the sum, and almost normal. */
  lemma AbsTimeIsSum(now: Timespec, relative: Timespec)
    requires now.Normal() && relative.Normal()
    ensures AbsTime(now, relative).Nanos() == now.Nanos() + relative.Nanos()
    ensures 0 <= AbsTime(now, relative).nsec <= NANOS
    ensures AbsTime(now, relative).Normal() <==> now.nsec + relative.nsec != NANOS
  {
  }

  /** The comparison is that of the times, but for one case: a time that is left with a full second of
      nanoseconds comes before the same time with the second carried. */
  lemma LessIsEarlier(a: Timespec, b: Timespec)
    requires 0 <= a.nsec <= NANOS && 0 <= b.nsec <= NANOS
    ensures Less(a, b) <==> a.Nanos() < b.Nanos() || (b.sec == a.sec + 1 && a.nsec == NANOS && b.nsec == 0)
  {
  }

  /** An event, numbered in the order of arrival. */
  datatype Event = Event(param: int, no: nat, time: Timespec)

  function Insert(q: seq<Event>, e: Event): seq<Event> {
    if q == [] then [e]
    else if Less(e.time, q[0].time) then [e] + q else [q[0]] + Insert(q[1..], e)
  }

  predicate Due(q: seq<Event>, now: Timespec) {
    q != [] && Less(q[0].time, now)
  }

  lemma {:induction false} InsertIsAt(q: seq<Event>, e: Event, k: nat)
    requires k <= |q| && (forall i | 0 <= i < k :: !Less(e.time, q[i].time)) && (k < |q| ==> Less(e.time, q[k].time))
    ensures Insert(q, e) == q[..k] + [e] + q[k..]
    decreases |q|
  {
    if k > 0 {
      InsertIsAt(q[1..], e, k - 1);
    }
  }

  // ----- runs

  /** An event that has fired: when, and how many events had arrived by then. */
  datatype Fired = Fired(event: Event, now: Timespec, arrivals: nat)

  datatype State = State(queue: seq<Event>, arrived: seq<Event>, fired: seq<Fired>)

  datatype Action = Enqueue(param: int, now: Timespec, relative: Timespec) | Poll(now: Timespec)

  /** A thread reads the clock before it gets the queue, so the readings need not be in the order of the
      steps: another thread's step may come in between. */
  predicate Enabled(a: Action) {
    a.now.Normal() && (a.Enqueue? ==> a.relative.Normal())
  }

  function Next(s: State, a: Action): State {
    match a
    case Enqueue(param, now, relative) =>
      var e := Event(param, |s.arrived|, AbsTime(now, relative));
      s.(queue := Insert(s.queue, e), arrived := s.arrived + [e])
    case Poll(now) =>
      if Due(s.queue, now) then
        s.(queue := s.queue[1..], fired := s.fired + [Fired(s.queue[0], now, |s.arrived|)])
      else s
  }

  /** Earlier, or first come at the same time. */
  predicate Before(a: Event, b: Event) {
    Less(a.time, b.time) || (a.time == b.time && a.no < b.no)
  }

  predicate Sorted(q: seq<Event>) {
    forall i, j | 0 <= i < j < |q| :: Before(q[i], q[j])
  }

  function Events(fired: seq<Fired>): seq<Event> {
    if fired == [] then [] else Events(fired[..|fired| - 1]) + [fired[|fired| - 1].event]
  }

  /** An event that fires goes before all that had arrived and had not fired. */
  predicate FiredWell(f: Fired) {
    && f.event.no < f.arrivals
    && Less(f.event.time, f.now) && 0 <= f.event.time.nsec <= NANOS && f.now.Normal()
  }

  predicate InOrder(s: State) {
    && (forall i, k | 0 <= i < |s.fired| && 0 <= k < |s.queue| && s.queue[k].no < s.fired[i].arrivals ::
          Before(s.fired[i].event, s.queue[k]))
    && (forall i, j | 0 <= i < j < |s.fired| && s.fired[j].event.no < s.fired[i].arrivals ::
          Before(s.fired[i].event, s.fired[j].event))
  }

  predicate Conserved(s: State) {
    multiset(s.arrived) == multiset(Events(s.fired)) + multiset(s.queue)
  }

  predicate Numbered(s: State) {
    && (forall k | 0 <= k < |s.arrived| :: s.arrived[k].no == k && 0 <= s.arrived[k].time.nsec <= NANOS)
    && (forall k | 0 <= k < |s.queue| :: s.queue[k].no < |s.arrived| && 0 <= s.queue[k].time.nsec <= NANOS)
    && (forall i | 0 <= i < |s.fired| :: FiredWell(s.fired[i]) && s.fired[i].arrivals <= |s.arrived|)
  }

  predicate Inv(s: State) {
    Sorted(s.queue) && Conserved(s) && Numbered(s) && InOrder(s)
  }

  lemma SortedCons(x: Event, q: seq<Event>)
    requires Sorted(q) && forall k | 0 <= k < |q| :: Before(x, q[k])
    ensures Sorted([x] + q)
  {
    hide Before;
  }

  lemma FirstGoesFirst(e: Event, q: seq<Event>)
    requires Sorted(q) && q != [] && Less(e.time, q[0].time)
    ensures Sorted([e] + q)
  {
    forall k | 0 <= k < |q| ensures Before(e, q[k]) {
      assert k > 0 ==> Before(q[0], q[k]);
    }
    SortedCons(e, q);
  }

  lemma InsertTail(q: seq<Event>, e: Event)
    requires q != [] && !Less(e.time, q[0].time)
    ensures Insert(q, e) == [q[0]] + Insert(q[1..], e)
  {
  }

  lemma {:induction false} InsertAdds(q: seq<Event>, e: Event)
    ensures multiset(Insert(q, e)) == multiset(q) + multiset{e}
    ensures forall k | 0 <= k < |Insert(q, e)| :: Insert(q, e)[k] == e || Insert(q, e)[k] in q
    decreases |q|
  {
    hide Less;
    if q != [] {
      assert q == [q[0]] + q[1..];
      if !Less(e.time, q[0].time) {
        InsertAdds(q[1..], e);
      }
    }
  }

  lemma {:induction false} InsertKeepsSorted(q: seq<Event>, e: Event)
    requires Sorted(q) && forall k | 0 <= k < |q| :: q[k].no < e.no
    ensures Sorted(Insert(q, e)) && multiset(Insert(q, e)) == multiset(q) + multiset{e}
    ensures forall k | 0 <= k < |Insert(q, e)| :: Insert(q, e)[k] == e || Insert(q, e)[k] in q
    decreases |q|
  {
    InsertAdds(q, e);
    if q != [] && Less(e.time, q[0].time) {
      FirstGoesFirst(e, q);
    } else if q != [] {
      var r := Insert(q[1..], e);
      InsertKeepsSorted(q[1..], e);
      InsertTail(q, e);
      hide Insert;
      forall k | 0 <= k < |r| ensures Before(q[0], r[k]) {
        if r[k] != e {
          assert r[k] in q[1..];
        }
      }
      SortedCons(q[0], r);
    }
  }

  lemma EnqueueKeeps(s: State, a: Action)
    requires Inv(s) && Enabled(a) && a.Enqueue?
    ensures Inv(Next(s, a))
  {
    var e := Event(a.param, |s.arrived|, AbsTime(a.now, a.relative));
    AbsTimeIsSum(a.now, a.relative);
    InsertKeepsSorted(s.queue, e);
    hide Insert, AbsTime, Less, Before, Sorted, Events;
    ArrivalKeepsOrder(s, Next(s, a), e);
    ArrivalKeepsNumbers(s, Next(s, a), e);
    hide Numbered, InOrder;
  }

  /** The queue has no events but those it had and the new one. */
  predicate Grown(s: State, t: State, e: Event) {
    && t.fired == s.fired && t.arrived == s.arrived + [e] && e.no == |s.arrived|
    && forall k | 0 <= k < |t.queue| :: t.queue[k] == e || t.queue[k] in s.queue
  }

  lemma ArrivalKeepsOrder(s: State, t: State, e: Event)
    requires InOrder(s) && Numbered(s) && Grown(s, t, e)
    ensures InOrder(t)
  {
    hide Before, FiredWell;
  }

  lemma ArrivalKeepsNumbers(s: State, t: State, e: Event)
    requires Numbered(s) && Grown(s, t, e) && 0 <= e.time.nsec <= NANOS
    ensures Numbered(t)
  {
    hide FiredWell;
  }

  lemma EventsSnoc(fired: seq<Fired>, f: Fired)
    ensures Events(fired + [f]) == Events(fired) + [f.event]
  {
    assert (fired + [f])[..|fired|] == fired;
  }

  lemma PollKeeps(s: State, a: Action)
    requires Inv(s) && Enabled(a) && a.Poll?
    ensures Inv(Next(s, a))
  {
    hide Events, Less, Before, Conserved, InOrder, Sorted, Numbered, FiredWell;
    if Due(s.queue, a.now) {
      var f := Fired(s.queue[0], a.now, |s.arrived|);
      FiringConserves(s, f);
      FiringKeepsOrder(s, f);
      FiringKeepsNumbers(s, f);
      assert Next(s, a) == FiredNow(s, f);
    }
  }

  function FiredNow(s: State, f: Fired): State
    requires s.queue != []
  {
    s.(queue := s.queue[1..], fired := s.fired + [f])
  }

  lemma FiringConserves(s: State, f: Fired)
    requires Conserved(s) && Sorted(s.queue) && s.queue != [] && f.event == s.queue[0]
    ensures Conserved(FiredNow(s, f)) && Sorted(s.queue[1..])
  {
    hide Before;
    EventsSnoc(s.fired, f);
    assert s.queue == [s.queue[0]] + s.queue[1..];
  }

  lemma FiringKeepsOrder(s: State, f: Fired)
    requires InOrder(s) && Sorted(s.queue) && s.queue != [] && f.event == s.queue[0]
    ensures InOrder(FiredNow(s, f))
  {
    hide Before;
  }

  lemma FiringKeepsNumbers(s: State, f: Fired)
    requires Numbered(s) && s.queue != [] && f == Fired(s.queue[0], f.now, |s.arrived|)
    requires Less(s.queue[0].time, f.now) && f.now.Normal()
    ensures Numbered(FiredNow(s, f))
  {
    hide Less;
  }

  predicate Executes(s: State, actions: seq<Action>, last: State)
    decreases |actions|
  {
    if actions == [] then last == s else Enabled(actions[0]) && Executes(Next(s, actions[0]), actions[1..], last)
  }

  lemma {:induction false} RunsKeepInv(s: State, actions: seq<Action>, last: State)
    requires Inv(s) && Executes(s, actions, last)
    ensures Inv(last)
    decreases |actions|
  {
    hide Inv, Next, Enabled;
    if actions != [] {
      if actions[0].Enqueue? {
        EnqueueKeeps(s, actions[0]);
      } else {
        PollKeeps(s, actions[0]);
      }
      RunsKeepInv(Next(s, actions[0]), actions[1..], last);
    }
  }

  function Init(): State {
    State([], [], [])
  }

  /** The time of an event has passed, but for a time left with a full second of nanoseconds when the clock shows
      just the same moment. */
  predicate Passed(time: Timespec, now: Timespec) {
    time.Nanos() < now.Nanos() || (now.sec == time.sec + 1 && time.nsec == 1000000000 && now.nsec == 0)
  }

  /** A poll takes the first event exactly if its time has passed, and else changes nothing. */
  lemma PollsExactly(s: State, now: Timespec)
    requires now.Normal() && (s.queue != [] ==> 0 <= s.queue[0].time.nsec <= 1000000000)
    ensures if s.queue != [] && Passed(s.queue[0].time, now)
            then var f := Fired(s.queue[0], now, |s.arrived|);
                 Next(s, Poll(now)) == s.(queue := s.queue[1..], fired := s.fired + [f])
            else Next(s, Poll(now)) == s
  {
    if s.queue != [] {
      LessIsEarlier(s.queue[0].time, now);
    }
  }

  /** Over every run: no event is lost or duplicated; the list is sorted by time, and by arrival for equal
      times; each event that fired was the first of those waiting; and none fired before its time had passed. */
  lemma RunsAreSorted(actions: seq<Action>, s: State)
    requires Executes(Init(), actions, s)
    ensures multiset(s.arrived) == multiset(Events(s.fired)) + multiset(s.queue)
    ensures Sorted(s.queue) && InOrder(s)
    ensures forall i | 0 <= i < |s.fired| :: Passed(s.fired[i].event.time, s.fired[i].now)
  {
    assert Inv(Init()) && (Inv(s) ==> Sorted(s.queue) && Conserved(s) && Numbered(s) && InOrder(s));
    RunsKeepInv(Init(), actions, s);
    forall i | 0 <= i < |s.fired| ensures Passed(s.fired[i].event.time, s.fired[i].now) {
      assert FiredWell(s.fired[i]);
      LessIsEarlier(s.fired[i].event.time, s.fired[i].now);
    }
  }

  function Polls(s: State, now: Timespec, n: nat): State
    decreases n
  {
    if n == 0 then s else Polls(Next(s, Poll(now)), now, n - 1)
  }

  /** An event whose time has passed is not held up: it fires as soon as those before it have, and they all
      are due as well. */
  lemma {:induction false} DueEventsFire(s: State, now: Timespec, k: nat)
    requires Sorted(s.queue) && k < |s.queue| && Less(s.queue[k].time, now)
    ensures Polls(s, now, k + 1).queue == s.queue[k + 1..]
    ensures Events(Polls(s, now, k + 1).fired) == Events(s.fired) + s.queue[..k + 1]
    decreases k
  {
    var next := Next(s, Poll(now));
    if k > 0 {
      assert Before(s.queue[0], s.queue[k]);
    }
    assert Due(s.queue, now);
    EventsSnoc(s.fired, Fired(s.queue[0], now, |s.arrived|));
    if k > 0 {
      DueEventsFire(next, now, k - 1);
      assert Events(s.fired) + [s.queue[0]] + s.queue[1..][..k] == Events(s.fired) + s.queue[..k + 1];
    } else {
      assert Polls(next, now, 0) == next;
    }
  }

  // ----- equal times

  /** Of two events for the same moment, the one that came first is put first, unless its time is the carried
      form and the other's is not. */
  lemma SameMomentIsFifo(a: Event, b: Event)
    requires a.no < b.no && a.time.Nanos() == b.time.Nanos() && 0 <= a.time.nsec <= NANOS && 0 <= b.time.nsec <= NANOS
    ensures Before(a, b) <==> !(a.time.nsec == 0 && b.time.nsec == NANOS)
    ensures Insert([a], b) == if Before(a, b) then [a, b] else [b, a]
  {
    LessIsEarlier(a.time, b.time);
    LessIsEarlier(b.time, a.time);
    assert [a][1..] == [];
  }

  /** And that does happen. */
  lemma SameMomentOutOfOrder()
    ensures var s := Next(Next(Init(), Enqueue(1, Timespec(5, 0), Timespec(1, 0))),
                          Enqueue(2, Timespec(5, 500000000), Timespec(0, 500000000)));
            && s.queue[0].param == 2 && s.queue[1].param == 1 && s.queue[0].time.Nanos() == s.queue[1].time.Nanos()
  {
    var a, b := Event(1, 0, Timespec(6, 0)), Event(2, 1, Timespec(5, NANOS));
    assert Insert([], a) == [a];
    SameMomentIsFifo(a, b);
  }
}
