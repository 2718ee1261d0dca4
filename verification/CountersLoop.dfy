/** `countersThread` among the other threads (arm/gator-daemon/Child.cpp:157-193): before each of its steps
    they may take any of theirs. */
module CountersLoop {
  import opened Basics
  import opened Leb128
  import opened GatorFraming
  import P = Pipeline
  import E = PipelineEnd
  import F = GatorFifo
  import R = GatorBufferRuns
  import C = CounterTurns
  import L = RingLaws
  import opened PipelineThreads

  /** A step of a run, told apart by whose it is. */
  datatype Step = Mine(action: P.Action) | Others(action: P.Action)

  function Actions(run: seq<Step>): seq<P.Action> {
    if run == [] then [] else [run[0].action] + Actions(run[1..])
  }

  /** What the counters thread does in a run. */
  function OwnOf(run: seq<Step>): seq<C.Own> {
    if run == [] then [] else Own(run[0]) + OwnOf(run[1..])
  }

  function Own(step: Step): seq<C.Own> {
    match step
    case Mine(Counters(call)) => [C.Made(call)]
    case Mine(EndSession) => [C.Ended]
    case _ => []
  }

  /** The counters thread makes the calls that record, and may end the session; the others may do all else. */
  predicate Proper(run: seq<Step>) {
    forall i | 0 <= i < |run| ::
      if run[i].Mine? then run[i].action.Counters? || run[i].action.EndSession? else !run[i].action.Counters?
  }

  lemma {:induction false} BothRuns(a: seq<Step>, b: seq<Step>)
    ensures Actions(a + b) == Actions(a) + Actions(b) && OwnOf(a + b) == OwnOf(a) + OwnOf(b)
    ensures Proper(a) && Proper(b) ==> Proper(a + b)
    decreases |a|
  {
    hide Own;
    if a == [] {
      assert a + b == b && [] + Actions(b) == Actions(b) && [] + OwnOf(b) == OwnOf(b);
    } else {
      assert (a + b)[1..] == a[1..] + b;
      BothRuns(a[1..], b);
      Associate([a[0].action], Actions(a[1..]), Actions(b));
      Associate(Own(a[0]), OwnOf(a[1..]), OwnOf(b));
    }
  }

  /** A run so far, and the thread's own steps in it. */
  ghost predicate Ran(p: P.State, run: seq<Step>, q: P.State, own: seq<C.Own>) {
    P.Executes(p, Actions(run), q) && P.Inv(q) && Proper(run) && OwnOf(run) == own
  }

  lemma RanIs(p: P.State, run: seq<Step>, q: P.State, own: seq<C.Own>)
    requires Ran(p, run, q, own)
    ensures P.Executes(p, Actions(run), q) && P.Inv(q)
  {
    hide P.Executes, P.Inv, OwnOf, Actions;
  }

  lemma RanNothing(p: P.State)
    requires P.Inv(p)
    ensures Ran(p, [], p, [])
  {
    hide P.Inv;
  }

  lemma RanBoth(p: P.State, a: seq<Step>, q: P.State, c: seq<C.Own>, b: seq<Step>, r: P.State, d: seq<C.Own>)
    requires Ran(p, a, q, c) && Ran(q, b, r, d)
    ensures Ran(p, a + b, r, c + d)
  {
    hide P.Executes, P.Inv, OwnOf, Actions, Proper;
    E.Executed(p, Actions(a), q, Actions(b), r);
    BothRuns(a, b);
  }

  lemma OneStep(p: P.State, a: P.Action)
    requires P.Inv(p) && P.Enabled(p, a) && (a.Counters? || a.EndSession?)
    ensures P.Inv(P.Next(p, a)) && Ran(p, [Mine(a)], P.Next(p, a), Own(Mine(a)))
  {
    hide *;
    P.NextKeepsInv(p, a);
    ExecutesOne(p, a);
    OneIs(Mine(a));
    RanFrom(p, [Mine(a)], P.Next(p, a));
  }

  lemma ExecutesOne(p: P.State, a: P.Action)
    requires P.Inv(p) && P.Enabled(p, a) && P.Inv(P.Next(p, a))
    ensures P.Executes(p, [a], P.Next(p, a))
  {
    hide P.Inv, P.Next, P.Enabled;
    assert P.Executes(P.Next(p, a), [a][1..], P.Next(p, a));
  }

  lemma OneIs(step: Step)
    requires step.Mine? && (step.action.Counters? || step.action.EndSession?)
    ensures Actions([step]) == [step.action] && OwnOf([step]) == Own(step) && Proper([step])
  {
    hide Own;
    assert [step][1..] == [];
    assert Own(step) + [] == Own(step);
  }

  lemma RanFrom(p: P.State, run: seq<Step>, q: P.State)
    requires P.Executes(p, Actions(run), q) && P.Inv(q) && Proper(run)
    ensures Ran(p, run, q, OwnOf(run))
  {
    hide P.Executes, P.Inv, OwnOf, Actions, Proper;
  }

  /** What the other threads leave to the counters thread: where it is in a turn, and what it has recorded. */
  ghost predicate Spared(p: P.State, q: P.State) {
    && q.ring.ticking == p.ring.ticking && q.ring.buffer.done == p.ring.buffer.done
    && q.ring.history.frames == p.ring.history.frames && q.ring.history.open == p.ring.history.open
    && (q.active ==> p.active)
  }

  lemma SenderSpares(p: P.State)
    requires P.Inv(p) && P.SenderEnabled(p)
    ensures p.fifo.Valid() && p.ring.buffer.Placed() && Spared(p, P.SenderStep(p))
  {
    hide *;
    RingIsSound(p);
    SendFacts(p);
    StepIs(p);
    NotGone(p);
    DrainFacts(p);
    ReadSpares(p);
    SparedIs(p, P.SenderStep(p));
  }

  lemma SparedIs(p: P.State, q: P.State)
    ensures q.ring == p.ring && q.active == p.active ==> Spared(p, q)
    ensures p.ring.buffer.Placed() && q.ring == R.Apply(p.ring, R.Write) && q.active == p.active ==> Spared(p, q)
  {
    if p.ring.buffer.Placed() {
      WriteSpares(p.ring);
    }
    hide R.Apply;
  }

  lemma ReadSpares(p: P.State)
    ensures P.ReadStep(p).ring == p.ring && P.ReadStep(p).active == p.active
  {
    hide F.State.Read;
  }

  lemma WriteSpares(r: R.Run)
    requires r.buffer.Placed()
    ensures var t := R.Apply(r, R.Write);
            && t.ticking == r.ticking && t.buffer.done == r.buffer.done
            && t.history.frames == r.history.frames && t.history.open == r.history.open
  {
  }

  lemma OtherSpares(p: P.State, a: P.Action)
    requires P.Inv(p) && P.Enabled(p, a) && !a.Counters?
    ensures Spared(p, P.Next(p, a))
  {
    if a.Sender? {
      SenderSpares(p);
    } else {
      NextIs(p, a);
    }
    hide P.Inv, P.SenderStep, P.SenderEnabled, F.State.WillFill, F.State.IsFull, F.State.Fill, F.State.Publish;
  }

  /** So does any run of theirs. */
  lemma {:induction false} OthersSpare(p: P.State, run: seq<Step>, q: P.State)
    requires P.Executes(p, Actions(run), q) && Proper(run) && forall i | 0 <= i < |run| :: run[i].Others?
    ensures Spared(p, q)
    decreases |run|
  {
    if run != [] {
      hide P.Inv, P.Next, P.Enabled;
      assert Actions(run)[1..] == Actions(run[1..]) && Actions(run)[0] == run[0].action;
      OtherSpares(p, run[0].action);
      OthersSpare(P.Next(p, run[0].action), run[1..], q);
    }
  }

  // ----- the thread

  /** The other threads take their steps. Which ones is for the scheduler to say: the counters thread can rely
      on nothing but what every run of them ensures. */
  method Yield(s: Session, ghost p: P.State) returns (ghost run: seq<Step>, ghost q: P.State)
    requires s.Is(p) && P.Inv(p)
    modifies s, s.sender, s.collectorFifo, s.collectorFifo.buffer, s.collectorFifo.waitForSpaceSem, s.buffer,
      s.buffer.buf, s.senderSem, s.haltPipeline
    ensures s.Is(q) && Ran(p, run, q, []) && Spared(p, q)
  {
    run, q := [], p;
    RanNothing(p);
  }

  lemma RanYield(p: P.State, a: seq<Step>, q: P.State, c: seq<C.Own>, b: seq<Step>, r: P.State)
    requires Ran(p, a, q, c) && Ran(q, b, r, [])
    ensures Ran(p, a + b, r, c) && P.Inv(r)
  {
    hide *;
    RanBoth(p, a, q, c, b, r, []);
    RanIs(q, b, r, []);
    assert c + [] == c;
  }

  lemma RanCall(p: P.State, a: seq<Step>, q: P.State, c: seq<C.Own>, call: R.Call)
    requires Ran(p, a, q, c) && P.Inv(q) && P.Enabled(q, P.Counters(call)) && q.ring.buffer.Placed()
    ensures Ran(p, a + [Mine(P.Counters(call))], P.CountersStep(q, call), c + [C.Made(call)])
  {
    hide *;
    OneStep(q, P.Counters(call));
    CountIs(q, call);
    OwnIs(call);
    RanBoth(p, a, q, c, [Mine(P.Counters(call))], P.CountersStep(q, call), [C.Made(call)]);
  }

  lemma OwnIs(call: R.Call)
    ensures Own(Mine(P.Counters(call))) == [C.Made(call)] && Own(Mine(P.EndSession)) == [C.Ended]
  {
  }

  /** The ring is full: no more than the margin is left, which is 200 bytes, and 2000 once something has been
      refused. */
  predicate Full(p: P.State) {
    var b := p.ring.buffer;
    b.size - L.Distance(b.readPos, b.writePos, b.size) <= if b.available then 200 else 2000
  }

  lemma FullIs(p: P.State)
    requires p.ring.buffer.Placed()
    ensures Full(p) <==> p.ring.buffer.BytesAvailable() <= 0
  {
  }

  /** Looks whether the ring is full, and if so ends the session; `seen` is the state it has looked at. */
  method EndIfFull(s: Session, ghost p: P.State)
      returns (ghost run: seq<Step>, ghost q: P.State, ghost seen: P.State)
    requires s.Is(p) && P.Inv(p)
    modifies s, s.sender, s.collectorFifo, s.collectorFifo.buffer, s.collectorFifo.waitForSpaceSem, s.buffer,
      s.buffer.buf, s.senderSem, s.haltPipeline
    ensures s.Is(q) && Spared(p, q) && OnRun(p, run, seen)
    ensures Ran(p, run, q, if Full(seen) then [C.Ended] else []) && (Full(seen) ==> !q.active)
  {
    hide *;
    run, q := Yield(s, p);
    RanIs(p, run, q, []);
    seen := q;
    OnRunNow(p, run, q, []);
    var left := s.BytesAvailable(q);
    FullIs(q);
    if left <= 0 {
      ghost var more, r := Yield(s, q);
      RanYield(p, run, q, [], more, r);
      s.EndSession(r);
      EndIsStep(r);
      OneStep(r, P.EndSession);
      OwnIs(R.SetDone);
      RanBoth(p, run + more, r, [], [Mine(P.EndSession)], P.End(r), [C.Ended]);
      assert [] + [C.Ended] == [C.Ended];
      SparedOn(p, q, r);
      SparedOn(p, r, P.End(r));
      OnRunStill(p, run, more + [Mine(P.EndSession)], seen);
      Associate(run, more, [Mine(P.EndSession)]);
      run, q := run + more + [Mine(P.EndSession)], P.End(r);
    }
  }

  lemma EndIsStep(p: P.State)
    requires P.Inv(p)
    ensures P.Enabled(p, P.EndSession) && P.Next(p, P.EndSession) == P.End(p)
    ensures Spared(p, P.End(p)) && !P.End(p).active
  {
    hide P.Inv;
  }

  lemma SparedOn(p: P.State, q: P.State, r: P.State)
    requires Spared(p, q) && Spared(q, r)
    ensures Spared(p, r)
  {
  }

  /** In a turn that began in the state p: the header has been recorded, and these counters. */
  ghost predicate Recording(p: P.State, q: P.State, g: C.Group) {
    && q.ring.ticking && !q.ring.buffer.done
    && q.ring.history.frames == p.ring.history.frames && q.ring.history.open == p.ring.history.open + g.All()
  }

  /** A turn is over that began in the state p. */
  ghost predicate TurnOver(p: P.State, q: P.State, group: Option<C.Group>) {
    C.Idle(q.ring) && C.TurnAdds(p.ring.history, q.ring.history, group)
  }

  lemma RecordingSpared(p: P.State, q: P.State, g: C.Group, r: P.State)
    requires Recording(p, q, g) && Spared(q, r)
    ensures Recording(p, r, g) && r.ring.ticking
  {
  }

  lemma IdleSpared(q: P.State, r: P.State)
    requires C.Idle(q.ring) && Spared(q, r) && P.Inv(r)
    ensures C.Idle(r.ring)
  {
    RingIsSound(r);
    hide P.Inv, R.Inv;
  }

  lemma OverSpared(p: P.State, q: P.State, group: Option<C.Group>, r: P.State)
    requires TurnOver(p, q, group) && Spared(q, r) && P.Inv(r)
    ensures TurnOver(p, r, group)
  {
    IdleSpared(q, r);
    hide P.Inv, R.Inv;
  }

  lemma HeaderStep(p: P.State, q: P.State, time: Int64)
    requires C.Idle(q.ring) && Spared(p, q) && P.Inv(q)
    ensures q.ring.buffer.Placed() && P.Enabled(q, P.Counters(R.Header(time)))
    ensures var r := P.CountersStep(q, R.Header(time));
            if r.ring.ticking then Recording(p, r, C.Group(time, [])) else TurnOver(p, r, None)
  {
    HeaderAllowed(q, time);
    C.HeaderRecords(q.ring, time);
    C.CallKeeps(q.ring, R.Header(time));
    hide P.Inv, R.Inv, R.Apply, P.CountersStep, P.Enabled;
  }

  /** The counters recorded so far, after one more has been offered. */
  function Offered(g: C.Group, r: R.Run, key: Int32, value: Int32): C.Group {
    if r.buffer.available then g.(counters := g.counters + [Counter(key, value)]) else g
  }

  lemma EventStep(p: P.State, q: P.State, g: C.Group, key: Int32, value: Int32)
    requires Recording(p, q, g) && P.Inv(q)
    ensures q.ring.buffer.Placed() && P.Enabled(q, P.Counters(R.Event(key, value)))
    ensures var r := P.CountersStep(q, R.Event(key, value)); Recording(p, r, Offered(g, r.ring, key, value))
  {
    EventAllowed(q, key, value);
    RingIsSound(q);
    C.EventRecords(q.ring, key, value);
    C.CallKeeps(q.ring, R.Event(key, value));
    hide P.Inv, R.Inv, R.Apply, P.CountersStep, P.Enabled, C.Refusing;
    Associate(p.ring.history.open, g.All(), [Counter(key, value)]);
    assert g.All() + [Counter(key, value)] == g.(counters := g.counters + [Counter(key, value)]).All();
  }

  lemma CheckStep(p: P.State, q: P.State, g: C.Group, now: nat)
    requires Recording(p, q, g) && P.Inv(q)
    ensures q.ring.buffer.Placed() && P.Enabled(q, P.Counters(R.Check(now)))
    ensures TurnOver(p, P.CountersStep(q, R.Check(now)), Some(g))
  {
    CheckAllowed(q, now);
    RingIsSound(q);
    C.CheckCloses(q.ring, now);
    C.CallKeeps(q.ring, R.Check(now));
    hide P.Inv, R.Inv, R.Apply, P.CountersStep, P.Enabled;
  }

  lemma NextOffered(g: C.Group, r: R.Run, sample: C.Sample, k: nat)
    requires k < |sample.readings| && g.time == sample.time
    requires C.Subsequence(g.counters, C.Records(sample.readings[..k]))
    ensures var h := Offered(g, r, sample.readings[k].key, sample.readings[k].value);
            C.Subsequence(h.counters, C.Records(sample.readings[..k + 1])) && h.time == sample.time
    ensures C.EventsOf(sample.readings[..k + 1])
         == C.EventsOf(sample.readings[..k]) + [C.Made(R.Event(sample.readings[k].key, sample.readings[k].value))]
  {
    C.SubsequenceGrows(g.counters, sample.readings, k);
  }

  lemma NothingOffered(sample: C.Sample)
    ensures sample.readings[..0] == [] && C.EventsOf([]) == [] && C.Subsequence([], C.Records([]))
    ensures sample.readings[..|sample.readings|] == sample.readings
  {
  }

  /** `hwmon.read` and `check`, after the header. */
  method ReadAndCheck(s: Session, sample: C.Sample, ghost p: P.State, ghost begun: seq<Step>, ghost first: P.State)
      returns (ghost run: seq<Step>, ghost q: P.State, ghost g: C.Group)
    requires s.Is(first) && Ran(p, begun, first, [C.Made(R.Header(sample.time))])
    requires Recording(p, first, C.Group(sample.time, []))
    modifies s, s.sender, s.collectorFifo, s.collectorFifo.buffer, s.collectorFifo.waitForSpaceSem, s.buffer,
      s.buffer.buf, s.senderSem, s.haltPipeline
    ensures s.Is(q) && Ran(p, run, q, C.Script(sample, true, false)) && C.Belongs(g, sample) && TurnOver(p, q, Some(g))
  {
    hide *;
    NothingOffered(sample);
    ghost var calls := [C.Made(R.Header(sample.time))];
    run, q, g := begun, first, C.Group(sample.time, []);
    assert calls + [] == calls;
    for k := 0 to |sample.readings|
      invariant s.Is(q) && Ran(p, run, q, calls + C.EventsOf(sample.readings[..k])) && Recording(p, q, g)
      invariant g.time == sample.time && C.Subsequence(g.counters, C.Records(sample.readings[..k]))
    {
      ghost var made := calls + C.EventsOf(sample.readings[..k]);
      RanIs(p, run, q, made);
      ghost var more, r := Yield(s, q);
      RanYield(p, run, q, made, more, r);
      RecordingSpared(p, q, g, r);
      var key, value := sample.readings[k].key, sample.readings[k].value;
      EventStep(p, r, g, key, value);
      s.RecordEvent(key, value, r);
      RanCall(p, run + more, r, made, R.Event(key, value));
      run, q := run + more + [Mine(P.Counters(R.Event(key, value)))], P.CountersStep(r, R.Event(key, value));
      NextOffered(g, q.ring, sample, k);
      Associate(calls, C.EventsOf(sample.readings[..k]), [C.Made(R.Event(key, value))]);
      g := Offered(g, q.ring, key, value);
    }
    ghost var made := calls + C.EventsOf(sample.readings);
    RanIs(p, run, q, made);
    ghost var more, r := Yield(s, q);
    RanYield(p, run, q, made, more, r);
    RecordingSpared(p, q, g, r);
    CheckStep(p, r, g, sample.now);
    s.CheckRing(sample.now, r);
    RanCall(p, run + more, r, made, R.Check(sample.now));
    run, q := run + more + [Mine(P.Counters(R.Check(sample.now)))], P.CountersStep(r, R.Check(sample.now));
    ScriptIs(sample);
    BelongsIs(g, sample);
  }

  lemma ScriptIs(sample: C.Sample)
    ensures C.Script(sample, true, false)
         == [C.Made(R.Header(sample.time))] + C.EventsOf(sample.readings) + [C.Made(R.Check(sample.now))]
    ensures C.Script(sample, false, false) == [C.Made(R.Header(sample.time))]
    ensures forall accepted :: C.Script(sample, accepted, true) == C.Script(sample, accepted, false) + [C.Ended]
  {
    hide C.EventsOf;
    Associate([C.Made(R.Header(sample.time))], C.EventsOf(sample.readings), [C.Made(R.Check(sample.now))]);
  }

  lemma BelongsIs(g: C.Group, sample: C.Sample)
    ensures C.Belongs(g, sample) <==> g.time == sample.time && C.Subsequence(g.counters, C.Records(sample.readings))
  {
  }

  /** One turn: the time, the counters if there was room for it, only then the check; and the end of the session
      exactly if the ring is found full, in the state `seen`. Whatever other threads do in between, what it
      records stays together. */
  method CountersTurn(s: Session, sample: C.Sample, ghost p: P.State)
      returns (ghost run: seq<Step>, ghost q: P.State, ghost group: Option<C.Group>, ghost seen: P.State)
    requires s.Is(p) && P.Inv(p) && C.Idle(p.ring)
    modifies s, s.sender, s.collectorFifo, s.collectorFifo.buffer, s.collectorFifo.waitForSpaceSem, s.buffer,
      s.buffer.buf, s.senderSem, s.haltPipeline
    ensures s.Is(q) && Ran(p, run, q, C.Script(sample, group.Some?, Full(seen))) && TurnOver(p, q, group)
    ensures group.Some? ==> C.Belongs(group.value, sample)
    ensures OnRun(p, run, seen) && (Full(seen) ==> !q.active)
  {
    hide *;
    run, q := Yield(s, p);
    RanIs(p, run, q, []);
    IdleSpared(p, q);
    HeaderStep(p, q, sample.time);
    var ok := s.RecordHeader(sample.time, q);
    RanCall(p, run, q, [], R.Header(sample.time));
    ScriptIs(sample);
    assert [] + [C.Made(R.Header(sample.time))] == [C.Made(R.Header(sample.time))];
    run, q, group := run + [Mine(P.Counters(R.Header(sample.time)))], P.CountersStep(q, R.Header(sample.time)), None;
    if ok {
      ghost var g;
      run, q, g := ReadAndCheck(s, sample, p, run, q);
      group := Some(g);
    }
    ghost var own := C.Script(sample, group.Some?, false);
    RanIs(p, run, q, own);
    ghost var more, r;
    more, r, seen := EndIfFull(s, q);
    ghost var last := if Full(seen) then [C.Ended] else [];
    RanIs(q, more, r, last);
    RanBoth(p, run, q, own, more, r, last);
    assert own + [] == own;
    OverSpared(p, q, group, r);
    OnRunLater(p, run, q, own, more, seen);
    run, q := run + more, r;
  }

  /** A state that the run goes through. */
  ghost predicate OnRun(p: P.State, run: seq<Step>, q: P.State) {
    exists k :: 0 <= k <= |run| && P.Executes(p, Actions(run[..k]), q)
  }

  lemma OnRunNow(p: P.State, run: seq<Step>, q: P.State, calls: seq<C.Own>)
    requires Ran(p, run, q, calls)
    ensures OnRun(p, run, q)
  {
    hide P.Executes, OwnOf, P.Inv, Actions;
    assert run[..|run|] == run;
  }

  lemma OnRunStill(p: P.State, run: seq<Step>, more: seq<Step>, q: P.State)
    requires OnRun(p, run, q)
    ensures OnRun(p, run + more, q)
  {
    hide P.Executes, Actions;
    var k :| 0 <= k <= |run| && P.Executes(p, Actions(run[..k]), q);
    assert (run + more)[..k] == run[..k];
  }

  lemma OnRunLater(p: P.State, run: seq<Step>, q: P.State, own: seq<C.Own>, more: seq<Step>, r: P.State)
    requires Ran(p, run, q, own) && OnRun(q, more, r)
    ensures OnRun(p, run + more, r)
  {
    hide P.Executes, Actions, OwnOf, P.Inv;
    var k :| 0 <= k <= |more| && P.Executes(q, Actions(more[..k]), r);
    BothRuns(run, more[..k]);
    E.Executed(p, Actions(run), q, Actions(more[..k]), r);
    assert (run + more)[..|run| + k] == run + more[..k];
  }

  /** The layout of what has been recorded. */
  ghost predicate Laid(p: P.State, layout: C.Layout, samples: seq<C.Sample>, accepted: seq<bool>)
    requires |accepted| == |samples|
  {
    C.Lays(layout, p.ring.history) && C.Ordered(layout.Groups(), samples, accepted)
  }

  lemma LaidSpared(p: P.State, q: P.State, layout: C.Layout, samples: seq<C.Sample>, accepted: seq<bool>)
    requires |accepted| == |samples| && Laid(p, layout, samples, accepted) && Spared(p, q)
    ensures Laid(q, layout, samples, accepted)
  {
    hide C.Ordered;
  }

  lemma LaidAtFirst(p: P.State, samples: seq<C.Sample>)
    requires p.ring.history.frames == [] && p.ring.history.open == []
    ensures Laid(p, C.Layout([], []), samples[..0], []) && C.Scripts(samples[..0], [], []) == []
  {
    C.NothingFlat();
  }

  lemma LaidOn(p: P.State, q: P.State, layout: C.Layout, samples: seq<C.Sample>, accepted: seq<bool>,
      full: seq<bool>, i: nat, group: Option<C.Group>, ended: bool)
    requires i < |samples| && |accepted| == |full| == i && Laid(p, layout, samples[..i], accepted)
    requires TurnOver(p, q, group) && (group.Some? ==> C.Belongs(group.value, samples[i]))
    ensures Laid(q, C.AfterTurn(layout, p.ring.history, q.ring.history, group), samples[..i + 1],
                 accepted + [group.Some?])
    ensures C.Idle(q.ring)
    ensures C.Scripts(samples[..i + 1], accepted + [group.Some?], full + [ended])
         == C.Scripts(samples[..i], accepted, full) + C.Script(samples[i], group.Some?, ended)
  {
    C.TurnLays(layout, p.ring.history, q.ring.history, group);
    C.TurnIsOrdered(layout.Groups(), samples, accepted, full, i, group, ended);
    hide C.Idle, C.Ordered, C.Lays, C.AfterTurn, C.Layout.Groups, C.Scripts, C.Script, C.Belongs;
  }

  /** After `setDone` every group is in a frame. */
  lemma LaidAtLast(p: P.State, layout: C.Layout, samples: seq<C.Sample>, accepted: seq<bool>)
    requires |accepted| == |samples| && Laid(p, layout, samples, accepted) && P.Inv(p) && C.Idle(p.ring)
    ensures p.ring.buffer.Placed() && P.Enabled(p, P.Counters(R.SetDone))
    ensures var q := P.CountersStep(p, R.SetDone);
            Laid(q, layout.Close(), samples, accepted) && q.ring.buffer.done && q.ring.history.open == []
  {
    DoneAllowed(p);
    C.NothingFlat();
    DoneCloses(p.ring);
    C.GroupsAfter(layout, C.Group(0, []));
    hide P.Inv, C.Idle, R.Apply, P.CountersStep, P.Enabled, C.Ordered, C.Flat, C.AllGroups, C.Layout.Groups;
  }

  lemma DoneCloses(r: R.Run)
    requires r.buffer.Placed()
    ensures R.Apply(r, R.SetDone).history == R.CloseFrame(r.history)
  {
  }

  /** The counters thread, from the start of the session to its end, among any steps of the other threads.
      `samples` is what the clock and the counters give. It is a run in which its own steps are those of its
      turns and then `setDone`; it makes a turn exactly if the session was active when it looked, as long as
      there are samples; a turn ends the session exactly if it sees the ring full; and every frame is made of
      whole groups, the time of a turn and those of its counters for which there was room. */
  method CountersThread(s: Session, samples: seq<C.Sample>, ghost p: P.State)
      returns (turns: nat, ghost run: seq<Step>, ghost last: P.State, ghost accepted: seq<bool>, ghost full: seq<bool>,
               ghost layout: C.Layout, ghost looks: seq<P.State>, ghost seen: seq<P.State>)
    requires s.Is(p) && P.Inv(p) && C.Idle(p.ring) && p.ring.history.frames == [] && p.ring.history.open == []
    modifies s, s.sender, s.collectorFifo, s.collectorFifo.buffer, s.collectorFifo.waitForSpaceSem, s.buffer,
      s.buffer.buf, s.senderSem, s.haltPipeline
    ensures turns <= |samples| && |accepted| == |full| == |seen| == turns && |looks| == turns + 1
    ensures s.Is(last) && Ran(p, run, last, C.Scripts(samples[..turns], accepted, full) + [C.Made(R.SetDone)])
    ensures last.ring.buffer.done && last.ring.history.open == []
    ensures C.Lays(layout, last.ring.history) && C.Ordered(layout.Groups(), samples[..turns], accepted)
    ensures forall i | 0 <= i <= turns :: OnRun(p, run, looks[i])
    ensures forall i | 0 <= i < turns :: looks[i].active
    ensures turns < |samples| ==> !looks[turns].active
    ensures forall i | 0 <= i < turns :: OnRun(p, run, seen[i]) && (full[i] <==> Full(seen[i]))
  {
    hide *;
    LaidAtFirst(p, samples);
    turns, accepted, full, seen, layout := 0, [], [], [], C.Layout([], []);
    run, last := Yield(s, p);
    RanIs(p, run, last, []);
    IdleSpared(p, last);
    LaidSpared(p, last, layout, samples[..0], accepted);
    s.IsActive(last);
    looks := [last];
    OnRunNow(p, run, last, []);
    while turns < |samples| && s.active
      invariant turns <= |samples| && |accepted| == |full| == |seen| == turns
      invariant |looks| == turns + 1 && looks[turns] == last
      invariant s.Is(last) && P.Inv(last) && C.Idle(last.ring) && last.active == s.active
      invariant Ran(p, run, last, C.Scripts(samples[..turns], accepted, full))
      invariant Laid(last, layout, samples[..turns], accepted)
      invariant forall i | 0 <= i <= turns :: OnRun(p, run, looks[i])
      invariant forall i | 0 <= i < turns :: looks[i].active
      invariant forall i | 0 <= i < turns :: OnRun(p, run, seen[i])
      invariant forall i | 0 <= i < turns :: full[i] <==> Full(seen[i])
      decreases |samples| - turns
    {
      ghost var own := C.Scripts(samples[..turns], accepted, full);
      ghost var more, q, group, look := CountersTurn(s, samples[turns], last);
      ghost var made := C.Script(samples[turns], group.Some?, Full(look));
      RanBoth(p, run, last, own, more, q, made);
      OnRunLater(p, run, last, own, more, look);
      LaidOn(last, q, layout, samples, accepted, full, turns, group, Full(look));
      layout := C.AfterTurn(layout, last.ring.history, q.ring.history, group);
      accepted, full := accepted + [group.Some?], full + [Full(look)];
      RanIs(last, more, q, made);
      turns := turns + 1;
      ghost var others, r := Yield(s, q);
      RanYield(p, run + more, q, C.Scripts(samples[..turns], accepted, full), others, r);
      LooksStay(p, run, more + others, looks);
      LooksStay(p, run, more + others, seen);
      OnRunStill(p, run + more, others, look);
      Associate(run, more, others);
      run, last := run + more + others, r;
      IdleSpared(q, last);
      LaidSpared(q, last, layout, samples[..turns], accepted);
      s.IsActive(last);
      looks, seen := looks + [last], seen + [look];
      OnRunNow(p, run, last, C.Scripts(samples[..turns], accepted, full));
    }
    ghost var own := C.Scripts(samples[..turns], accepted, full);
    ghost var more, q := Yield(s, last);
    RanYield(p, run, last, own, more, q);
    IdleSpared(last, q);
    LaidSpared(last, q, layout, samples[..turns], accepted);
    LaidAtLast(q, layout, samples[..turns], accepted);
    s.FinishRing(q);
    RanCall(p, run + more, q, own, R.SetDone);
    LooksStay(p, run, more + [Mine(P.Counters(R.SetDone))], looks);
    LooksStay(p, run, more + [Mine(P.Counters(R.SetDone))], seen);
    Associate(run, more, [Mine(P.Counters(R.SetDone))]);
    run, last, layout := run + more + [Mine(P.Counters(R.SetDone))], P.CountersStep(q, R.SetDone), layout.Close();
    LaidIs(last, layout, samples[..turns], accepted);
  }

  lemma LaidIs(p: P.State, layout: C.Layout, samples: seq<C.Sample>, accepted: seq<bool>)
    requires |accepted| == |samples| && Laid(p, layout, samples, accepted)
    ensures C.Lays(layout, p.ring.history) && C.Ordered(layout.Groups(), samples, accepted)
  {
    hide C.Lays, C.Ordered, C.Layout.Groups;
  }

  lemma LooksStay(p: P.State, run: seq<Step>, more: seq<Step>, looks: seq<P.State>)
    requires forall i | 0 <= i < |looks| :: OnRun(p, run, looks[i])
    ensures forall i | 0 <= i < |looks| :: OnRun(p, run + more, looks[i])
  {
    hide OnRun;
    forall i | 0 <= i < |looks| ensures OnRun(p, run + more, looks[i]) {
      OnRunStill(p, run, more, looks[i]);
    }
  }
}
