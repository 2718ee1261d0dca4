/** The capture pipeline of the gator daemon (arm/gator-daemon/Child.cpp): the collect loop of `run`
    fills the FIFO, the counters thread fills the block-counter buffer, and the sender thread empties
    both, coordinated by three counting semaphores. A step is what a thread does between two points at
    which another may get in: one method call, or one side of a wait. */
module Pipeline {
  import opened Basics
  import F = GatorFifo
  import R = GatorBufferRuns
  import opened GatorFraming

  /** The collect loop. `Collected` has bytes in the FIFO's free region; the flag of the last two says
      whether the loop goes on once the wait is over. */
  datatype CollectorPc = Collecting | Collected(count: int) | AtGuard(more: bool) | Blocked(more: bool) | Ended

  /** The sender thread: at `sem_wait(&haltPipeline)`, at the loop's guard, at `sem_wait(&senderSem)`,
      about to read the FIFO, holding a span, about to drain the buffer, gone. */
  datatype SenderPc = AtHalt | AtTest | AtSem | Woken | Holding | AtRing | Exited

  /** One call of the sender's `writeData`. */
  datatype Chunk = FromFifo(data: seq<Byte>) | FromRing(data: seq<Byte>) | EndOfCapture

  function FifoPart(log: seq<Chunk>): seq<Byte> {
    if log == [] then []
    else FifoPart(log[..|log| - 1]) + match log[|log| - 1] case FromFifo(d) => d case _ => []
  }

  function RingPart(log: seq<Chunk>): seq<Byte> {
    if log == [] then []
    else RingPart(log[..|log| - 1]) + match log[|log| - 1] case FromRing(d) => d case _ => []
  }

  datatype State = State(
    fifo: F.State,
    ring: R.Run,
    senderSem: nat,
    spaceSem: nat,
    haltPipeline: nat,
    oneShot: bool,
    active: bool,             // gSessionData->mSessionIsActive
    collector: CollectorPc,
    sender: SenderPc,
    length: nat,              // the sender's `length`, 1 at first
    written: seq<Byte>,       // history: what the collect loop has written to the FIFO
    log: seq<Chunk>)          // history: what the sender has sent

  datatype Action =
    | Collect(data: seq<Byte>, count: int)
    | Publish
    | Guard
    | SpaceWait
    | Counters(call: R.Call)  // any call but `write`, which is the sender's
    | EndSession
    | Sender

  /** Whether a step can be taken. The counters thread and the threads that end the session are never
      blocked; what `collect` returns is up to the driver. */
  predicate Enabled(p: State, a: Action) {
    match a
    case Collect(data, count) =>
      p.collector == Collecting && -1 <= count <= p.fifo.single && |data| == F.Count(count)
    case Publish => p.collector.Collected?
    case Guard => p.collector.AtGuard?
    case SpaceWait => p.collector.Blocked? && p.spaceSem > 0
    case Counters(call) => call != R.Write && R.Allowed(p.ring, call)
    case EndSession => true
    case Sender => SenderEnabled(p)
  }

  predicate SenderEnabled(p: State) {
    match p.sender
    case AtHalt => p.haltPipeline > 0
    case AtSem => p.senderSem > 0
    case Exited => false
    case _ => true
  }

  function End(p: State): State {
    p.(active := false, haltPipeline := p.haltPipeline + 1)
  }

  /** `collect`, and the one-shot check that follows it. */
  function CollectStep(p: State, data: seq<Byte>, count: int): State
    requires p.fifo.write + |data| <= |p.fifo.bytes|
  {
    var q := p.(fifo := p.fifo.Fill(data), collector := Collected(count), written := p.written);
    if p.oneShot && p.active && (count == -1 || q.fifo.WillFill(count)) then End(q) else q
  }

  function PublishStep(p: State): State
    requires p.collector.Collected? && p.fifo.write + F.Count(p.collector.count) <= |p.fifo.bytes|
  {
    var n := p.collector.count;
    p.(fifo := p.fifo.Publish(n),
       written := p.written + p.fifo.bytes[p.fifo.write..p.fifo.write + F.Count(n)],
       senderSem := p.senderSem + 1,
       collector := AtGuard(n > 0))
  }

  function GuardStep(p: State): State
    requires p.collector.AtGuard?
  {
    p.(collector :=
         if p.fifo.IsFull() then Blocked(p.collector.more)
         else if p.collector.more then Collecting
         else Ended)
  }

  function SpaceWaitStep(p: State): State
    requires p.collector.Blocked? && p.spaceSem > 0
  {
    p.(spaceSem := p.spaceSem - 1, collector := AtGuard(p.collector.more))
  }

  predicate Posts(r: R.Run, call: R.Call)
    requires r.buffer.Placed()
  {
    call == R.SetDone || (call.Check? && r.buffer.CommitDue(call.now))
  }

  function CountersStep(p: State, call: R.Call): State
    requires p.ring.buffer.Placed()
  {
    p.(ring := R.Apply(p.ring, call), senderSem := p.senderSem + if Posts(p.ring, call) then 1 else 0)
  }

  function ReadStep(p: State): State {
    match p.fifo.Read()
    case None => p.(sender := AtRing)
    case Some(t) =>
      p.(fifo := t, length := if t.readCommit >= t.read then t.readCommit - t.read else 0, sender := Holding)
  }

  function SendStep(p: State): State
    requires p.fifo.read <= p.fifo.readCommit <= |p.fifo.bytes|
  {
    p.(log := p.log + [FromFifo(p.fifo.bytes[p.fifo.read..p.fifo.readCommit])],
       fifo := p.fifo.Release(),
       spaceSem := p.spaceSem + 1,
       sender := AtRing)
  }

  function DrainStep(p: State): State
    requires p.ring.buffer.Placed()
  {
    if p.ring.buffer.IsDone() then p.(sender := AtTest)
    else p.(log := p.log + [FromRing(p.ring.buffer.Outgoing())],
            ring := R.Apply(p.ring, R.Write),
            sender := AtTest)
  }

  function TestStep(p: State): State {
    if p.length > 0 || !p.ring.buffer.IsDone() then p.(sender := AtSem)
    else if p.ring.buffer.localCapture then p.(sender := Exited)
    else p.(sender := Exited, log := p.log + [EndOfCapture])
  }

  ghost function SenderStep(p: State): State
    requires p.fifo.Valid() && p.ring.buffer.Placed() && SenderEnabled(p)
  {
    match p.sender
    case AtHalt => p.(haltPipeline := p.haltPipeline - 1, sender := AtTest)
    case AtTest => TestStep(p)
    case AtSem => p.(senderSem := p.senderSem - 1, sender := Woken)
    case Woken => ReadStep(p)
    case Holding => SendStep(p)
    case AtRing => DrainStep(p)
    case Exited => p
  }

  // ----- the invariant

  /** Bytes: everything written to the FIFO has been sent or is still there, and likewise the buffer. */
  ghost predicate DataInv(p: State) {
    && p.fifo.Valid()
    && R.Inv(p.ring)
    && (p.sender != Holding ==> p.fifo.readCommit == p.fifo.read)
    && p.written == FifoPart(p.log) + p.fifo.Unread()
    && p.ring.history.sent == RingPart(p.log)
  }

  /** The collect loop writes only into free space, and is not left asleep once there is space. */
  ghost predicate SpaceInv(p: State) {
    && (p.collector == Collecting || p.collector.Collected? ==> !p.fifo.IsFull())
    && (p.collector.Collected? ==> -1 <= p.collector.count <= p.fifo.single)
    && (p.collector.Blocked? ==> p.fifo.IsFull() || p.spaceSem > 0)
    && (p.collector == Ended ==> !p.fifo.IsFull())
  }

  ghost predicate EndPublished(p: State) {
    p.collector == AtGuard(false) || p.collector == Blocked(false) || p.collector == Ended
  }

  /** How many wake-ups the sender still needs for the FIFO: one for every segment, and one to see the
      end mark. */
  ghost function Need(p: State): nat
    requires p.fifo.Valid()
  {
    p.fifo.Segments() + if p.fifo.end && p.length > 0 then 1 else 0
  }

  /** Wake-ups: the semaphore covers what the sender has still to be woken for. */
  ghost predicate CreditInv(p: State)
    requires p.fifo.Valid()
  {
    && p.senderSem + (if p.sender == Woken then 1 else 0) >= Need(p)
    && (p.sender in {AtHalt, AtTest, AtSem} && p.ring.buffer.CommitReady() ==> p.senderSem > 0)
    && (p.fifo.end <==> EndPublished(p))
    && (p.length == 0 ==> p.fifo.end && p.fifo.Unread() == [])
    && (p.sender == AtSem ==> p.length > 0 || !p.ring.buffer.IsDone())
    && (p.sender == Exited ==> p.length == 0 && p.ring.buffer.IsDone())
  }

  /** The gate: the sender is held back only while a one-shot session is collecting, and then nothing
      has been read and the collect loop has not had to wait. */
  ghost predicate GateInv(p: State) {
    p.sender == AtHalt && p.haltPipeline == 0 ==>
      && p.oneShot && p.active
      && p.fifo.read == 0 && p.fifo.raggedEnd == 0 && !p.fifo.IsFull()
      && !p.collector.Blocked?
      && (p.collector.Collected? ==> !p.fifo.WillFill(p.collector.count))
  }

  /** The end-of-capture sequence comes last, unless the capture is local. */
  ghost predicate Marked(p: State) {
    p.ring.buffer.localCapture || (p.log != [] && p.log[|p.log| - 1] == EndOfCapture)
  }

  ghost predicate Inv(p: State) {
    DataInv(p) && SpaceInv(p) && CreditInv(p) && GateInv(p) && (p.sender == Exited ==> Marked(p))
  }

  ghost function Next(p: State, a: Action): State
    requires Inv(p) && Enabled(p, a)
  {
    match a
    case Collect(data, count) =>
      F.FreeRegion(p.fifo);
      CollectStep(p, data, count)
    case Publish =>
      F.FreeRegion(p.fifo);
      PublishStep(p)
    case Guard => GuardStep(p)
    case SpaceWait => SpaceWaitStep(p)
    case Counters(call) => CountersStep(p, call)
    case EndSession => End(p)
    case Sender => SenderStep(p)
  }

  lemma PartsAppend(log: seq<Chunk>, c: Chunk)
    ensures FifoPart(log + [c]) == if c.FromFifo? then FifoPart(log) + c.data else FifoPart(log)
    ensures RingPart(log + [c]) == if c.FromRing? then RingPart(log) + c.data else RingPart(log)
  {
    assert (log + [c])[..|log|] == log;
  }

  // ----- every step keeps the invariant

  lemma CollectKeeps(p: State, data: seq<Byte>, count: int)
    requires Inv(p) && Enabled(p, Collect(data, count))
    ensures Inv(Next(p, Collect(data, count)))
  {
    hide R.Inv, FifoPart, RingPart, F.State.Valid, F.State.Unread, F.State.Held, F.State.Segments,
      F.State.IsFull;
    F.FillKeeps(p.fifo, data);
  }

  lemma PublishKeepsData(p: State)
    requires Inv(p) && p.collector.Collected?
    ensures p.fifo.write + F.Count(p.collector.count) <= |p.fifo.bytes|
    ensures DataInv(PublishStep(p))
  {
    hide R.Inv, FifoPart, RingPart, F.State.Valid, F.State.Unread, F.State.Held, F.State.Segments, F.State.Publish;
    var n := p.collector.count;
    F.PublishKeeps(p.fifo, n);
    F.PublishAppends(p.fifo, n);
    var more := p.fifo.bytes[p.fifo.write..p.fifo.write + F.Count(n)];
    Associate(FifoPart(p.log), p.fifo.Unread(), more);
  }

  lemma PublishKeeps(p: State)
    requires Inv(p) && Enabled(p, Publish)
    ensures Inv(Next(p, Publish))
  {
    hide R.Inv, FifoPart, RingPart, F.State.Valid, F.State.Unread, F.State.Held, F.State.Segments,
      F.State.Publish, F.State.IsFull, F.State.WillFill;
    PublishKeepsData(p);
    var n := p.collector.count;
    F.PublishKeeps(p.fifo, n);
    if p.sender == AtHalt && p.haltPipeline == 0 {
      F.NoWaitUnlessWillFill(p.fifo, n);
    }
  }

  lemma CollectorWaitKeeps(p: State, a: Action)
    requires Inv(p) && Enabled(p, a) && (a == Guard || a == SpaceWait)
    ensures Inv(Next(p, a))
  {
    hide R.Inv, FifoPart, RingPart;
  }

  lemma EndSessionKeeps(p: State)
    requires Inv(p)
    ensures Inv(End(p))
  {
    hide R.Inv, FifoPart, RingPart;
  }

  /** Only a commit makes bytes ready, and every commit posts. */
  lemma RingReadiness(r: R.Run, call: R.Call)
    requires R.Inv(r) && R.Allowed(r, call) && call != R.Write
    ensures R.Apply(r, call).buffer.CommitReady() ==> r.buffer.CommitReady() || Posts(r, call)
    ensures R.Apply(r, call).history.sent == r.history.sent
    ensures !r.buffer.IsDone() && !R.Apply(r, call).buffer.IsDone()
  {
  }

  lemma RingCall(r: R.Run, call: R.Call)
    requires R.Inv(r) && R.Allowed(r, call) && call != R.Write
    ensures r.buffer.Placed()
    ensures var t := R.Apply(r, call);
            && R.Inv(t) && t.history.sent == r.history.sent
            && !r.buffer.IsDone() && !t.buffer.IsDone()
            && (t.buffer.CommitReady() ==> r.buffer.CommitReady() || Posts(r, call))
  {
    R.ApplyKeepsInv(r, call);
    RingReadiness(r, call);
    hide R.Inv, R.Apply, R.Allowed, Posts;
  }

  lemma CountersKeeps(p: State, call: R.Call)
    requires Inv(p) && Enabled(p, Counters(call))
    ensures Inv(Next(p, Counters(call)))
  {
    hide R.Inv, R.Apply, R.Allowed, FifoPart, RingPart, F.State.Valid, F.State.Segments, F.State.Unread, F.State.IsFull,
      F.State.WillFill;
    RingCall(p.ring, call);
  }

  lemma ReadKeeps(p: State)
    requires Inv(p) && p.sender == Woken
    ensures Inv(ReadStep(p))
  {
    hide R.Inv, FifoPart, RingPart, F.State.Valid, F.State.Unread, F.State.Held, F.State.Segments,
      F.State.Read;
    F.ReadHandsOutPrefix(p.fifo);
  }

  lemma SendKeeps(p: State)
    requires Inv(p) && p.sender == Holding
    ensures Inv(SendStep(p))
  {
    hide R.Inv, FifoPart, RingPart;
    F.ReleaseDropsHeld(p.fifo);
    PartsAppend(p.log, FromFifo(p.fifo.Held()));
    Associate(FifoPart(p.log), p.fifo.Held(), p.fifo.Release().Unread());
  }

  lemma RingWrite(r: R.Run)
    requires R.Inv(r)
    ensures var t := R.Apply(r, R.Write);
            && r.buffer.Placed() && R.Inv(t) && !t.buffer.CommitReady()
            && t.history.sent == r.history.sent + r.buffer.Outgoing()
  {
    R.ApplyKeepsInv(r, R.Write);
  }

  lemma DrainKeeps(p: State)
    requires Inv(p) && p.sender == AtRing
    ensures Inv(DrainStep(p))
  {
    hide R.Inv, FifoPart, RingPart;
    RingWrite(p.ring);
    PartsAppend(p.log, FromRing(p.ring.buffer.Outgoing()));
  }

  lemma TestKeeps(p: State)
    requires Inv(p) && p.sender == AtTest
    ensures Inv(TestStep(p))
  {
    hide R.Inv, FifoPart, RingPart, F.State.Valid, F.State.Unread, F.State.Segments, F.State.IsFull, F.State.WillFill;
    PartsAppend(p.log, EndOfCapture);
  }

  lemma SenderKeeps(p: State)
    requires Inv(p) && SenderEnabled(p)
    ensures Inv(SenderStep(p))
  {
    match p.sender
    case Woken => ReadKeeps(p);
    case Holding => SendKeeps(p);
    case AtRing => DrainKeeps(p);
    case AtTest => TestKeeps(p);
    case _ =>
  }

  lemma NextKeepsInv(p: State, a: Action)
    requires Inv(p) && Enabled(p, a)
    ensures Inv(Next(p, a))
  {
    match a
    case Collect(data, count) => CollectKeeps(p, data, count);
    case Publish => PublishKeeps(p);
    case Counters(call) => CountersKeeps(p, call);
    case EndSession => EndSessionKeeps(p);
    case Sender => SenderKeeps(p);
    case _ => CollectorWaitKeeps(p, a);
  }

  // ----- runs

  /** `run` at the moment its three shared objects have been built and no thread has moved: one-shot
      sessions start with the gate shut, others with two tokens for it. */
  function Init(fifo: F.State, ring: R.Run, oneShot: bool): State {
    State(fifo, ring, 0, 0, if oneShot then 0 else 2, oneShot, true, Collecting, AtHalt, 1, [], [])
  }

  lemma InitInv(single: nat, threshold: nat, area: seq<Byte>, ring: R.Run, oneShot: bool)
    requires 0 < single < threshold && |area| == threshold + single
    requires R.Inv(ring) && ring.history.sent == [] && !ring.buffer.CommitReady()
    ensures Inv(Init(F.Init(single, threshold, area), ring, oneShot))
  {
    hide R.Inv;
    F.InitIsSound(single, threshold, area);
  }

  ghost predicate Executes(p: State, actions: seq<Action>, last: State)
    decreases |actions|
  {
    Inv(p) &&
    if actions == [] then p == last
    else Enabled(p, actions[0]) && Executes(Next(p, actions[0]), actions[1..], last)
  }

  /** Safety over whole runs: whatever the interleaving, what the sender has sent from the FIFO is a
      prefix of what was collected, what it has sent from the buffer is the committed frames but for
      those still ready in the ring, and a sender that is gone has delivered everything, with the
      end-of-capture sequence last unless the capture is local. */
  lemma {:induction false} RunsDeliverPrefixes(p: State, actions: seq<Action>, last: State)
    requires Executes(p, actions, last)
    ensures Inv(last)
    ensures FifoPart(last.log) <= last.written
    ensures RingPart(last.log) + R.Committed(last.ring.buffer)
         == R.FormatOf(last.ring.buffer).Stream(last.ring.history.frames)
    ensures last.sender == Exited ==> Delivered(last) && Marked(last)
    decreases |actions|
  {
    if actions == [] {
      if last.sender == Exited {
        ExitedHasDelivered(last);
      }
    } else {
      NextKeepsInv(p, actions[0]);
      RunsDeliverPrefixes(Next(p, actions[0]), actions[1..], last);
    }
  }

  /** Everything collected and every committed frame has been sent. */
  ghost predicate Delivered(p: State) {
    && FifoPart(p.log) == p.written
    && RingPart(p.log) == R.FormatOf(p.ring.buffer).Stream(p.ring.history.frames)
    && p.ring.history.open == []
  }

  lemma ExitedHasDelivered(p: State)
    requires Inv(p) && p.sender == Exited
    ensures Delivered(p) && Marked(p)
  {
    hide FifoPart, RingPart;
    assert R.Committed(p.ring.buffer) == [];
  }

  // ----- nobody sleeps on work that is there to be done

  /** A sender that waits on an empty semaphore has nothing to deliver, and production is not over. */
  lemma SleepingSenderHasNoWork(p: State)
    requires Inv(p) && p.sender == AtSem && p.senderSem == 0
    ensures p.fifo.Unread() == [] && !p.ring.buffer.CommitReady()
    ensures !EndPublished(p) || !p.ring.buffer.done
  {
    hide FifoPart, RingPart;
  }

  /** A collect loop that waits for space has a sender that can take a step: there is no deadlock
      between the two, even in one-shot mode, where the loop never waits before the session ends. */
  lemma BlockedCollectorHasSender(p: State)
    requires Inv(p) && p.collector.Blocked? && p.spaceSem == 0
    ensures SenderEnabled(p)
  {
    hide R.Inv, FifoPart, RingPart;
  }

  /** One-shot mode: until something lets the sender pass the gate, the collect loop is never made to
      wait, so nothing can keep it from reaching the point where it ends the session. */
  lemma OneShotNeverWaits(p: State)
    requires Inv(p) && p.sender == AtHalt && p.haltPipeline == 0
    ensures p.oneShot && p.active && !p.collector.Blocked?
    ensures p.collector.AtGuard? ==> !GuardStep(p).collector.Blocked?
  {
    hide R.Inv, FifoPart, RingPart;
  }

  /** What `collect` gives ends the session exactly if it is a one-shot session that is active, and nothing came
      or it would fill the FIFO: with it the unread bytes reach the threshold, or all but a single buffer of it
      once the writer is not ahead of the reader. */
  lemma CollectEndsExactly(p: State, data: seq<Byte>, count: int)
    requires Inv(p) && Enabled(p, Collect(data, count))
    ensures var q, f := Next(p, Collect(data, count)), p.fifo;
            var fills := |f.Unread()| + count >= if f.write > f.read then f.threshold else f.threshold - f.single;
            && q.active == (p.active && !(p.oneShot && (count == -1 || fills)))
            && q.haltPipeline == p.haltPipeline + if p.active && !q.active then 1 else 0
  {
    F.FillKeeps(p.fifo, data);
    F.WillFillExactly(p.fifo.Fill(data), count);
    hide R.Inv, FifoPart, RingPart, F.State.Valid, F.State.Unread, F.State.WillFill, F.State.IsFull, F.State.Held;
  }

  // ----- the clean end

  /** Production is over: the end mark is in the FIFO and `setDone` has run; and the gate is passed or
      can be. */
  ghost predicate Closing(p: State) {
    && EndPublished(p) && p.ring.buffer.done
    && (p.sender == AtHalt ==> p.haltPipeline > 0)
  }

  /** Bounds the sender's remaining steps once production is over. */
  function StepsLeft(p: State): nat {
    5 * p.senderSem + match p.sender
      case AtHalt => 2
      case AtTest => 1
      case AtSem => 0
      case Woken => 4
      case Holding => 3
      case AtRing => 2
      case Exited => 0
  }

  lemma ClosingSenderIsEnabled(p: State)
    requires Inv(p) && Closing(p) && p.sender != Exited
    ensures SenderEnabled(p)
  {
    hide FifoPart, RingPart;
  }

  /** No step of the sender posts the semaphore it waits on, reopens production, or loses history. */
  lemma SenderClosesIn(p: State)
    requires p.fifo.Valid() && p.ring.buffer.Placed() && Closing(p) && p.sender != Exited && SenderEnabled(p)
    ensures var q := SenderStep(p); StepsLeft(q) < StepsLeft(p) && Closing(q)
    ensures SenderStep(p).written == p.written && SenderStep(p).ring.history.frames == p.ring.history.frames
  {
    WriteKeepsFrames(p.ring);
    hide FifoPart, RingPart, F.State.Valid, F.State.Read, F.State.Release, R.FormatOf, R.Apply;
  }

  lemma WriteKeepsFrames(r: R.Run)
    requires r.buffer.Placed()
    ensures var t := R.Apply(r, R.Write);
            t.buffer.done == r.buffer.done && t.history.frames == r.history.frames
  {
  }

  /** The run in which the sender alone takes n steps. */
  ghost predicate SenderRun(p: State, n: nat, last: State) {
    Executes(p, seq(n, _ => Sender), last)
  }

  /** After the end mark and `setDone`, the sender, running on its own, is never stuck and exits within
      `StepsLeft` steps, having delivered every byte collected and every frame committed, with the
      end-of-capture sequence last unless the capture is local. */
  lemma {:induction false} SenderFinishes(p: State) returns (steps: nat, last: State)
    requires Inv(p) && Closing(p)
    ensures steps <= StepsLeft(p)
    ensures SenderRun(p, steps, last)
    ensures last.sender == Exited && Delivered(last)
    ensures last.written == p.written && last.ring.history.frames == p.ring.history.frames
    ensures Marked(last)
    decreases StepsLeft(p)
  {
    hide *;
    if p.sender == Exited {
      ExitedHasDelivered(p);
      ExecutesNothing(p);
      return 0, p;
    }
    var q := SenderAdvances(p);
    if q.sender == Exited {
      ExecutesNothing(q);
      return 1, q;
    }
    var n, l := SenderFinishes(q);
    steps, last := n + 1, l;
  }

  lemma ExecutesNothing(p: State)
    requires Inv(p)
    ensures SenderRun(p, 0, p)
  {
  }

  lemma SenderAdvances(p: State) returns (q: State)
    requires Inv(p) && Closing(p) && p.sender != Exited
    ensures SenderEnabled(p) && p.fifo.Valid() && p.ring.buffer.Placed() && q == SenderStep(p)
    ensures Inv(q) && Closing(q) && StepsLeft(q) < StepsLeft(p)
    ensures q.written == p.written && q.ring.history.frames == p.ring.history.frames
    ensures q.sender == Exited ==> Delivered(q) && Marked(q)
    ensures forall n: nat, last :: SenderRun(q, n, last) ==> SenderRun(p, n + 1, last)
  {
    assert p.fifo.Valid() && p.ring.buffer.Placed();
    hide Inv, Closing, SenderStep, Delivered, Marked, SenderRun;
    ClosingSenderIsEnabled(p);
    SenderClosesIn(p);
    SenderKeeps(p);
    q := SenderStep(p);
    if q.sender == Exited {
      ExitedHasDelivered(q);
    }
    forall n: nat, last | SenderRun(q, n, last)
      ensures SenderRun(p, n + 1, last)
    {
      ExecutesPrepend(p, n, last);
    }
  }

  lemma ExecutesPrepend(p: State, n: nat, last: State)
    requires Inv(p) && SenderEnabled(p) && Inv(SenderStep(p))
    requires SenderRun(SenderStep(p), n, last)
    ensures SenderRun(p, n + 1, last)
  {
    hide Inv, SenderStep;
    var actions := seq(n + 1, _ => Sender);
    assert actions[1..] == seq(n, _ => Sender);
    assert actions[0] == Sender;
  }
}
