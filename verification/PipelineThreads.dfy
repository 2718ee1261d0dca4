/** The loops of the threads of arm/gator-daemon/Child.cpp on the objects they share, and that what they do
    is the steps of `Pipeline`. */
module PipelineThreads {
  import opened Basics
  import P = Pipeline
  import F = GatorFifo
  import R = GatorBufferRuns
  import B = GatorBufferClass
  import C = CounterTurns
  import E = PipelineEnd
  import opened Leb128
  import opened Ring
  import opened GatorBuffer

  class Session {
    const collectorFifo: F.Fifo
    const buffer: B.Buffer
    const sender: B.Sender
    const senderSem: Semaphore
    const haltPipeline: Semaphore
    const oneShot: bool
    var active: bool
    /** `bytesCollected` of run, and `length` of senderThread. */
    var bytesCollected: int
    var length: nat
    ghost var log: seq<P.Chunk>

    /** The objects are different ones, and both producers wake the sender. */
    ghost predicate Apart()
      reads this
    {
      && collectorFifo.buffer != buffer.buf
      && collectorFifo.readerSem == senderSem && buffer.readerSem == senderSem
      && collectorFifo.waitForSpaceSem != senderSem && haltPipeline != senderSem
      && haltPipeline != collectorFifo.waitForSpaceSem
    }

    ghost predicate FifoIs(p: P.State)
      reads this, collectorFifo, collectorFifo.buffer, collectorFifo.waitForSpaceSem
    {
      collectorFifo.Valid() && p.fifo == collectorFifo.Value() && p.spaceSem == collectorFifo.waitForSpaceSem.count
    }

    ghost predicate RingIs(p: P.State)
      reads this, buffer, buffer.buf
    {
      buffer.Valid() && p.ring == buffer.run
    }

    ghost predicate RestIs(p: P.State)
      reads this, senderSem, haltPipeline, sender
    {
      && sender.sent == BytesOf(p.log)
      && p.senderSem == senderSem.count && p.haltPipeline == haltPipeline.count
      && p.oneShot == oneShot && p.active == active && p.length == length && p.log == log
      && (p.collector.Collected? ==> p.collector.count == bytesCollected)
    }

    /** The objects are in the state p. */
    ghost predicate Is(p: P.State)
      reads this, collectorFifo, collectorFifo.buffer, collectorFifo.waitForSpaceSem, buffer, buffer.buf, senderSem,
        haltPipeline, sender
    {
      Apart() && FifoIs(p) && RingIs(p) && RestIs(p)
    }

    /** The session as `run` sets it up before any thread moves. */
    constructor (single: nat, threshold: nat, size: nat, localCapture: bool, liveRate: nat, core: Int32, buftype: Int32,
                 oneShot: bool)
      requires 0 < single < threshold && IsPowerOfTwo(size) && 256 <= size <= MAX_SIZE
      ensures Is(P.Init(collectorFifo.Value(), buffer.run, oneShot))
          && P.Inv(P.Init(collectorFifo.Value(), buffer.run, oneShot))
      ensures senderSem.count == 0 && haltPipeline.count == if oneShot then 0 else 2
      ensures collectorFifo.waitForSpaceSem.count == 0 && active && length == 1 && sender.sent == []
    {
      hide *;
      var sem := new Semaphore(0);
      senderSem := sem;
      haltPipeline := new Semaphore(if oneShot then 0 else 2);
      collectorFifo := new F.Fifo(single, threshold, sem);
      buffer := new B.Buffer(localCapture, liveRate, core, buftype, size, sem);
      sender := new B.Sender();
      this.oneShot, active, bytesCollected, length, log := oneShot, true, 0, 1, [];
      new;
      collectorFifo.Fields();
      FifoStarts(single, threshold, collectorFifo.buffer[..]);
      F.Bounds(collectorFifo.Value());
      buffer.ValueIs();
      RingStarts(size, localCapture, liveRate, buftype, core, seq(size, _ => 0));
      P.InitInv(single, threshold, collectorFifo.buffer[..], buffer.run, oneShot);
      InitIs(collectorFifo.Value(), buffer.run, oneShot);
      Parts(P.Init(collectorFifo.Value(), buffer.run, oneShot));
    }

    /** What the objects have in the state p, field by field. */
    lemma Parts(p: P.State)
      ensures Is(p) <==>
        && Apart() && collectorFifo.Valid() && buffer.Valid() && p.fifo == collectorFifo.Value() && p.ring == buffer.run
        && p.spaceSem == collectorFifo.waitForSpaceSem.count
        && p.senderSem == senderSem.count && p.haltPipeline == haltPipeline.count
        && p.oneShot == oneShot && p.active == active && p.length == length && p.log == log
        && (p.collector.Collected? ==> p.collector.count == bytesCollected)
        && sender.sent == BytesOf(p.log)
      ensures Apart() <==>
        && collectorFifo.buffer != buffer.buf
        && collectorFifo.readerSem == senderSem && buffer.readerSem == senderSem
        && collectorFifo.waitForSpaceSem != senderSem && haltPipeline != senderSem
        && haltPipeline != collectorFifo.waitForSpaceSem
      ensures var v := collectorFifo.Value();
              && v.write == collectorFifo.write && v.read == collectorFifo.read
              && v.readCommit == collectorFifo.readCommit
              && v.end == collectorFifo.end && v.bytes == collectorFifo.buffer[..] && v.single == collectorFifo.single
      ensures buffer.Valid() ==> buffer.run.buffer == buffer.Value()
      ensures buffer.Value().localCapture == buffer.localCapture
    {
      hide F.State.Valid, R.Inv, BytesOf;
    }

    method EndSession(ghost p: P.State)
      requires Is(p)
      modifies this`active, haltPipeline
      ensures Is(P.End(p))
    {
      hide *;
      Parts(p);
      EndIs(p);
      active := false;
      haltPipeline.Post();
      Parts(P.End(p));
    }

    /** What the driver gives goes into the FIFO's free region; in a one-shot session the end is signalled first
        if the FIFO is about to be full. */
    method Collect(data: seq<Byte>, count: int, ghost p: P.State)
      requires Is(p) && P.Inv(p) && P.Enabled(p, P.Collect(data, count))
      modifies this`active, this`bytesCollected, haltPipeline, collectorFifo.buffer
      ensures p.fifo.write + |data| <= |p.fifo.bytes|
      ensures P.Inv(P.CollectStep(p, data, count)) && Is(P.CollectStep(p, data, count))
    {
      hide *;
      CollectFacts(p, data, count);
      Parts(p);
      collectorFifo.Fill(data);
      bytesCollected := count;
      ghost var q := Filled(p, data, count);
      Parts(q);
      if oneShot && active {
        var full := collectorFifo.WillFill(bytesCollected);
        if bytesCollected == -1 || full {
          EndSession(q);
        }
      }
    }

    /** `write` up to its wait. */
    method Publish(ghost p: P.State)
      requires Is(p) && P.Inv(p) && p.collector.Collected?
      modifies senderSem, collectorFifo
      ensures p.fifo.write + F.Count(p.collector.count) <= |p.fifo.bytes|
      ensures Is(P.PublishStep(p)) && P.Inv(P.PublishStep(p))
    {
      hide *;
      PublishFacts(p);
      Parts(p);
      collectorFifo.Write(bytesCollected);
      ghost var q := P.PublishStep(p);
      Parts(q);
    }

    /** The test of the wait loop in `write`. */
    method Guard(ghost p: P.State) returns (full: bool)
      requires Is(p) && P.Inv(p) && p.collector.AtGuard?
      ensures Is(P.GuardStep(p)) && P.Inv(P.GuardStep(p)) && full == P.GuardStep(p).collector.Blocked?
    {
      hide *;
      GuardFacts(p);
      Parts(p);
      var at := collectorFifo.TryFinishWrite();
      full := at.None?;
      Parts(P.GuardStep(p));
    }

    /** The wait in it. */
    method SpaceWait(ghost p: P.State)
      requires Is(p) && P.Inv(p) && P.Enabled(p, P.SpaceWait)
      modifies collectorFifo.waitForSpaceSem
      ensures p.collector.Blocked? && p.spaceSem > 0 && Is(P.SpaceWaitStep(p)) && P.Inv(P.SpaceWaitStep(p))
    {
      hide *;
      SpaceFacts(p);
      Parts(p);
      collectorFifo.waitForSpaceSem.Wait();
      Parts(P.SpaceWaitStep(p));
    }

    /** `read`, and the length it gives; None is the null pointer. */
    method ReadSpan(ghost p: P.State) returns (span: Option<(nat, nat)>)
      requires Is(p) && P.Inv(p) && p.sender == P.Woken
      modifies this`length, collectorFifo`readCommit
      ensures Is(P.ReadStep(p)) && P.ReadStep(p).sender == if span.Some? then P.Holding else P.AtRing
      ensures span.Some? ==> span.value == (collectorFifo.read, collectorFifo.readCommit - collectorFifo.read)
    {
      hide *;
      ReadFacts(p);
      Parts(p);
      span := collectorFifo.Read();
      ghost var q := P.ReadStep(p);
      if span.Some? {
        length := span.value.1;
      }
      Parts(q);
    }

    /** The span goes to the host and is released. */
    method SendSpan(span: (nat, nat), ghost p: P.State)
      requires Is(p) && P.Inv(p) && p.sender == P.Holding
      requires span == (collectorFifo.read, collectorFifo.readCommit - collectorFifo.read)
      modifies this`log, sender, collectorFifo, collectorFifo.waitForSpaceSem
      ensures p.fifo.Valid() && Is(P.SendStep(p))
    {
      hide *;
      SendFacts(p);
      Parts(p);
      ghost var data := p.fifo.bytes[p.fifo.read..p.fifo.readCommit];
      sender.WriteData(collectorFifo.buffer, span.0, span.1);
      assert collectorFifo.buffer[span.0..span.0 + span.1] == data;
      log := log + [P.FromFifo(data)];
      collectorFifo.Release();
      ghost var q := P.SendStep(p);
      Parts(q);
    }

    /** The ring's part of a turn: what is ready, unless all is done. */
    method DrainRing(ghost p: P.State)
      requires Is(p) && P.Inv(p) && p.sender == P.AtRing
      modifies this`log, sender, buffer
      ensures p.ring.buffer.Placed() && Is(P.DrainStep(p))
    {
      hide *;
      DrainFacts(p);
      Parts(p);
      var done := buffer.IsDone();
      if !done {
        buffer.Write(sender);
        log := log + [P.FromRing(p.ring.buffer.Outgoing())];
      }
      ghost var q := P.DrainStep(p);
      Parts(q);
    }

    // ----- countersThread

    method RecordHeader(time: Int64, ghost p: P.State) returns (ok: bool)
      requires Is(p) && P.Inv(p) && P.Enabled(p, P.Counters(R.Header(time)))
      modifies buffer, buffer.buf
      ensures p.ring.buffer.Placed() && Is(P.CountersStep(p, R.Header(time)))
          && P.Inv(P.CountersStep(p, R.Header(time)))
      ensures ok == P.CountersStep(p, R.Header(time)).ring.ticking
    {
      hide *;
      CountFacts(p, R.Header(time));
      Parts(p);
      ok := buffer.EventHeader(time);
      ghost var q := P.CountersStep(p, R.Header(time));
      Parts(q);
    }

    method RecordEvent(key: Int32, value: Int32, ghost p: P.State)
      requires Is(p) && P.Inv(p) && P.Enabled(p, P.Counters(R.Event(key, value)))
      modifies buffer, buffer.buf
      ensures p.ring.buffer.Placed() && Is(P.CountersStep(p, R.Event(key, value)))
          && P.Inv(P.CountersStep(p, R.Event(key, value)))
    {
      hide *;
      CountFacts(p, R.Event(key, value));
      Parts(p);
      buffer.Event(key, value);
      ghost var q := P.CountersStep(p, R.Event(key, value));
      Parts(q);
    }

    method RecordEvent64(key: Int64, value: Int64, ghost p: P.State)
      requires Is(p) && P.Inv(p) && P.Enabled(p, P.Counters(R.Event64(key, value)))
      modifies buffer, buffer.buf
      ensures p.ring.buffer.Placed()
      ensures Is(P.CountersStep(p, R.Event64(key, value))) && P.Inv(P.CountersStep(p, R.Event64(key, value)))
    {
      hide *;
      CountFacts(p, R.Event64(key, value));
      Parts(p);
      buffer.Event64(key, value);
      ghost var q := P.CountersStep(p, R.Event64(key, value));
      Parts(q);
    }

    method CheckRing(now: nat, ghost p: P.State)
      requires Is(p) && P.Inv(p) && P.Enabled(p, P.Counters(R.Check(now)))
      modifies buffer, buffer.buf, senderSem
      ensures p.ring.buffer.Placed() && Is(P.CountersStep(p, R.Check(now))) && P.Inv(P.CountersStep(p, R.Check(now)))
    {
      hide *;
      CountFacts(p, R.Check(now));
      Parts(p);
      buffer.Check(now);
      ghost var q := P.CountersStep(p, R.Check(now));
      Parts(q);
    }

    method FinishRing(ghost p: P.State)
      requires Is(p) && P.Inv(p) && P.Enabled(p, P.Counters(R.SetDone))
      modifies buffer, buffer.buf, senderSem
      ensures p.ring.buffer.Placed() && Is(P.CountersStep(p, R.SetDone)) && P.Inv(P.CountersStep(p, R.SetDone))
    {
      hide *;
      CountFacts(p, R.SetDone);
      Parts(p);
      buffer.SetDone();
      ghost var q := P.CountersStep(p, R.SetDone);
      Parts(q);
    }

    method BytesAvailable(ghost p: P.State) returns (left: int)
      requires Is(p) && P.Inv(p)
      ensures p.ring.buffer.Placed() && left == p.ring.buffer.BytesAvailable()
    {
      hide *;
      RingIsSound(p);
      Parts(p);
      left := buffer.BytesAvailable();
    }

    lemma IsActive(p: P.State)
      requires Is(p)
      ensures p.active == active
    {
      hide F.State.Valid, R.Inv;
    }

    // ----- senderThread, among the others

    /** One step of another thread. */
    method Other(a: P.Action, ghost p: P.State)
      requires Is(p) && P.Inv(p) && P.Enabled(p, a) && !a.Sender?
      modifies this`active, this`bytesCollected, haltPipeline, collectorFifo, collectorFifo.buffer,
        collectorFifo.waitForSpaceSem, buffer, buffer.buf, senderSem
      ensures Is(P.Next(p, a)) && P.Inv(P.Next(p, a))
    {
      hide *;
      NextIs(p, a);
      match a {
        case Collect(data, count) => Collect(data, count, p);
        case Publish => Publish(p);
        case Guard => var _ := Guard(p);
        case SpaceWait => SpaceWait(p);
        case EndSession => EndSession(p);
        case Counters(call) =>
          match call {
            case Header(time) => var _ := RecordHeader(time, p);
            case Event(key, value) => RecordEvent(key, value, p);
            case Event64(key, value) => RecordEvent64(key, value, p);
            case Check(now) => CheckRing(now, p);
            case SetDone => FinishRing(p);
          }
      }
    }

    /** The next step of the sender, which is at `at`. */
    method SenderMove(at: P.SenderPc, ghost p: P.State)
      requires Is(p) && P.Inv(p) && P.SenderEnabled(p) && p.sender == at
      modifies this`length, this`log, sender, collectorFifo, collectorFifo.waitForSpaceSem, buffer, senderSem,
        haltPipeline
      ensures p.fifo.Valid() && p.ring.buffer.Placed() && Is(P.SenderStep(p))
    {
      hide *;
      SendFacts(p);
      RingIsSound(p);
      StepIs(p);
      Parts(p);
      match at {
        case AtHalt => PassGate(p);
        case AtTest =>
          var done := IsDone(p);
          if length > 0 || !done {
            Tested(p);
          } else {
            WriteEnd(p);
          }
        case AtSem => AwaitWork(p);
        case Woken => var _ := ReadSpan(p);
        case Holding => SendSpan((collectorFifo.read, collectorFifo.readCommit - collectorFifo.read), p);
        case AtRing => DrainRing(p);
        case Exited => assert false by { NotGone(p); }
      }
    }

    /** What the other threads do before a step of the sender. */
    method Meanwhile(others: seq<seq<P.Action>>, i: nat, ghost p: P.State, ghost end: P.State)
        returns (ghost q: P.State)
      requires Is(p) && i <= |others| && E.Plays(p, others[i..]) && E.Played(p, others[i..]) == end
      requires p.sender != P.Exited
      modifies this`active, this`bytesCollected, haltPipeline, collectorFifo, collectorFifo.buffer,
        collectorFifo.waitForSpaceSem, buffer, buffer.buf, senderSem
      ensures i < |others| && Is(q) && E.Poised(q, others[i + 1..], end)
      ensures q.sender == p.sender && q.fifo.read == p.fifo.read && q.fifo.readCommit == p.fifo.readCommit
    {
      hide *;
      E.PlaysOn(p, others[i..]);
      assert others[i..][0] == others[i] && others[i..][1..] == others[i + 1..];
      E.OthersSpare(p, others[i]);
      var actions := others[i];
      q := p;
      assert actions[0..] == actions;
      for k := 0 to |actions|
        invariant Is(q) && E.OthersCan(q, actions[k..]) && E.AfterOthers(q, actions[k..]) == E.AfterOthers(p, actions)
      {
        E.OthersGoOn(q, actions[k..]);
        assert actions[k..][0] == actions[k] && actions[k..][1..] == actions[k + 1..];
        Other(actions[k], q);
        q := P.Next(q, actions[k]);
      }
      E.OthersStop(q);
      assert actions[|actions|..] == [];
    }

    /** One turn of the sender's loop after it has been woken. */
    method SenderTurn(others: seq<seq<P.Action>>, i: nat, ghost p: P.State, ghost end: P.State)
      returns (j: nat, ghost last: P.State)
      requires Is(p) && i < |others| && E.Poised(p, others[i + 1..], end) && p.sender == P.Woken
      modifies this`active, this`bytesCollected, this`length, this`log, sender, haltPipeline, collectorFifo,
        collectorFifo.buffer, collectorFifo.waitForSpaceSem, buffer, buffer.buf, senderSem
      ensures i < j <= |others| && Is(last) && last.sender == P.AtTest
      ensures E.Plays(last, others[j..]) && E.Played(last, others[j..]) == end
    {
      hide *;
      E.PoisedIs(p, others[i + 1..], end);
      StepIs(p);
      var span := ReadSpan(p);
      last, j := P.SenderStep(p), i + 1;
      if span.Some? {
        Parts(last);
        ghost var q := Meanwhile(others, j, last, end);
        Parts(q);
        E.PoisedIs(q, others[j + 1..], end);
        StepIs(q);
        SendSpan(span.value, q);
        last, j := P.SenderStep(q), j + 1;
      }
      ghost var q := Meanwhile(others, j, last, end);
      E.PoisedIs(q, others[j + 1..], end);
      StepIs(q);
      DrainRing(q);
      last, j := P.SenderStep(q), j + 1;
    }

    /** The sender's loop among the other threads, whatever they do in between: `others` is what, before each
        of its steps, so that it can take it, up to its end. It takes the steps of `Pipeline`, and in the end
        the host has been sent everything, and the end-of-capture sequence last unless the capture is local. */
    method SenderThread(others: seq<seq<P.Action>>, ghost p: P.State) returns (ghost last: P.State)
      requires Is(p) && E.Plays(p, others) && p.sender == P.AtHalt
      modifies this`active, this`bytesCollected, this`length, this`log, sender, haltPipeline, collectorFifo,
        collectorFifo.buffer, collectorFifo.waitForSpaceSem, buffer, buffer.buf, senderSem
      ensures Is(last) && last == E.Played(p, others)
      ensures last.sender == P.Exited && P.Delivered(last) && P.Marked(last)
      ensures !buffer.localCapture ==> EndsWith(sender.sent, [3, 0, 0, 0, 0])
    {
      hide *;
      ghost var end := E.Played(p, others);
      assert others[0..] == others;
      ghost var q := Meanwhile(others, 0, p, end);
      E.PoisedIs(q, others[1..], end);
      PassGate(q);
      last := P.SenderStep(q);
      var i := 1;
      q := Meanwhile(others, i, last, end);
      var done := IsDone(q);
      while length > 0 || !done
        invariant i < |others| && Is(q) && E.Poised(q, others[i + 1..], end) && q.sender == P.AtTest
        invariant q.length == length && done == q.ring.buffer.IsDone()
        decreases |others| - i
      {
        E.PoisedIs(q, others[i + 1..], end);
        Tested(q);
        last, i := P.SenderStep(q), i + 1;
        q := Meanwhile(others, i, last, end);
        E.PoisedIs(q, others[i + 1..], end);
        AwaitWork(q);
        last, i := P.SenderStep(q), i + 1;
        q := Meanwhile(others, i, last, end);
        i, last := SenderTurn(others, i, q, end);
        q := Meanwhile(others, i, last, end);
        done := IsDone(q);
      }
      E.PoisedIs(q, others[i + 1..], end);
      WriteEnd(q);
      last := P.SenderStep(q);
      E.Gone(last, others[i + 1..]);
      Parts(last);
      MarkedEnds(last);
    }

    /** `isDone`, and the length the loop tests with it. */
    method IsDone(ghost p: P.State) returns (done: bool)
      requires Is(p)
      ensures done == p.ring.buffer.IsDone() && p.length == length
    {
      hide *;
      Parts(p);
      done := buffer.IsDone();
    }

    /** `sem_wait(&haltPipeline)` */
    method PassGate(ghost p: P.State)
      requires Is(p) && p.fifo.Valid() && p.ring.buffer.Placed() && P.SenderEnabled(p) && p.sender == P.AtHalt
      modifies haltPipeline
      ensures Is(P.SenderStep(p)) && P.SenderStep(p).sender == P.AtTest
    {
      hide *;
      StepIs(p);
      Parts(p);
      haltPipeline.Wait();
      Parts(P.SenderStep(p));
    }

    /** The loop's test is passed. */
    lemma Tested(p: P.State)
      requires Is(p) && p.fifo.Valid() && p.ring.buffer.Placed() && P.SenderEnabled(p) && p.sender == P.AtTest
      requires p.length > 0 || !p.ring.buffer.IsDone()
      ensures Is(P.SenderStep(p)) && P.SenderStep(p).sender == P.AtSem
    {
      hide *;
      StepIs(p);
      Parts(p);
      Parts(P.SenderStep(p));
    }

    /** `sem_wait(&senderSem)` */
    method AwaitWork(ghost p: P.State)
      requires Is(p) && p.fifo.Valid() && p.ring.buffer.Placed() && P.SenderEnabled(p) && p.sender == P.AtSem
      modifies senderSem
      ensures Is(P.SenderStep(p)) && P.SenderStep(p).sender == P.Woken
    {
      hide *;
      StepIs(p);
      Parts(p);
      senderSem.Wait();
      Parts(P.SenderStep(p));
    }

    /** What follows the loop. */
    method WriteEnd(ghost p: P.State)
      requires Is(p) && p.fifo.Valid() && p.ring.buffer.Placed() && P.SenderEnabled(p) && p.sender == P.AtTest
      requires p.length == 0 && p.ring.buffer.IsDone()
      modifies this`log, sender
      ensures Is(P.SenderStep(p)) && P.SenderStep(p).sender == P.Exited
    {
      hide *;
      StepIs(p);
      Parts(p);
      EndBytes(p.log);
      if !buffer.localCapture {
        var endSequence := new Byte[5](i => if i == 0 then 3 else 0);
        sender.WriteData(endSequence, 0, 5);
        assert endSequence[0..5] == [3, 0, 0, 0, 0];
        log := log + [P.EndOfCapture];
      }
      Parts(P.SenderStep(p));
    }
  }

  const END_SEQUENCE: seq<Byte> := [3, 0, 0, 0, 0]

  function ChunkBytes(c: P.Chunk): seq<Byte> {
    match c
    case FromFifo(data) => data
    case FromRing(data) => data
    case EndOfCapture => END_SEQUENCE
  }

  /** What the host has been sent. */
  function BytesOf(log: seq<P.Chunk>): seq<Byte> {
    if log == [] then [] else BytesOf(log[..|log| - 1]) + ChunkBytes(log[|log| - 1])
  }

  lemma BytesSnoc(log: seq<P.Chunk>, c: P.Chunk)
    ensures BytesOf(log + [c]) == BytesOf(log) + ChunkBytes(c)
  {
    assert (log + [c])[..|log|] == log;
  }

  /** A call of the counters thread changes the ring and may wake the sender. */
  lemma CountFacts(p: P.State, call: R.Call)
    requires P.Inv(p) && P.Enabled(p, P.Counters(call))
    ensures p.ring.buffer.Placed() && R.Allowed(p.ring, call) && P.Inv(P.CountersStep(p, call))
    ensures var posts := if call == R.SetDone || (call.Check? && p.ring.buffer.CommitDue(call.now)) then 1 else 0;
            P.CountersStep(p, call) == p.(ring := R.Apply(p.ring, call), senderSem := p.senderSem + posts)
  {
    hide *;
    RingIsSound(p);
    CountIs(p, call);
    P.CountersKeeps(p, call);
  }

  lemma CountIs(p: P.State, call: R.Call)
    requires P.Inv(p) && P.Enabled(p, P.Counters(call))
    requires p.ring.buffer.Placed()
    ensures R.Allowed(p.ring, call) && P.Next(p, P.Counters(call)) == P.CountersStep(p, call)
    ensures var posts := if call == R.SetDone || (call.Check? && p.ring.buffer.CommitDue(call.now)) then 1 else 0;
            P.CountersStep(p, call) == p.(ring := R.Apply(p.ring, call), senderSem := p.senderSem + posts)
  {
    hide P.Inv, R.Apply, R.Allowed, GatorBuffer.State.CommitDue, GatorBuffer.State.Placed;
  }

  lemma NotGone(p: P.State)
    requires P.SenderEnabled(p)
    ensures p.sender != P.Exited
  {
  }

  lemma RingIsSound(p: P.State)
    requires P.Inv(p)
    ensures R.Inv(p.ring) && p.ring.buffer.Placed()
  {
    hide P.FifoPart, P.RingPart, F.State.Valid;
  }

  lemma HeaderAllowed(p: P.State, time: Int64)
    requires P.Inv(p) && C.Idle(p.ring)
    ensures p.ring.buffer.Placed() && P.Enabled(p, P.Counters(R.Header(time)))
    ensures P.CountersStep(p, R.Header(time)) == p.(ring := R.Apply(p.ring, R.Header(time)))
  {
    RingIsSound(p);
    hide P.Inv, R.Inv, R.Apply;
  }

  lemma EventAllowed(p: P.State, key: Int32, value: Int32)
    requires P.Inv(p) && p.ring.ticking
    ensures p.ring.buffer.Placed() && P.Enabled(p, P.Counters(R.Event(key, value)))
    ensures P.CountersStep(p, R.Event(key, value)) == p.(ring := R.Apply(p.ring, R.Event(key, value)))
  {
    RingIsSound(p);
    hide P.Inv, R.Inv, R.Apply;
  }

  lemma CheckAllowed(p: P.State, now: nat)
    requires P.Inv(p) && p.ring.ticking
    ensures p.ring.buffer.Placed() && P.Enabled(p, P.Counters(R.Check(now)))
    ensures var q := P.CountersStep(p, R.Check(now));
            q == p.(ring := R.Apply(p.ring, R.Check(now)), senderSem := q.senderSem) && q.senderSem >= p.senderSem
  {
    RingIsSound(p);
    hide P.Inv, R.Inv, R.Apply;
  }

  lemma DoneAllowed(p: P.State)
    requires P.Inv(p) && C.Idle(p.ring)
    ensures p.ring.buffer.Placed() && P.Enabled(p, P.Counters(R.SetDone))
    ensures var q := P.CountersStep(p, R.SetDone);
            && q.ring == R.Apply(p.ring, R.SetDone) && q.ring.buffer.done
            && q.active == p.active
  {
    RingIsSound(p);
    hide P.Inv, R.Inv;
  }

  predicate EndsWith(s: seq<Byte>, end: seq<Byte>) {
    |end| <= |s| && s[|s| - |end|..] == end
  }

  /** The end-of-capture sequence, spelled out. */
  lemma MarkedEnds(p: P.State)
    requires P.Marked(p)
    ensures !p.ring.buffer.localCapture ==> EndsWith(BytesOf(p.log), [3, 0, 0, 0, 0])
  {
    if !p.ring.buffer.localCapture {
      assert p.log == p.log[..|p.log| - 1] + [P.EndOfCapture];
      EndBytes(p.log[..|p.log| - 1]);
    }
  }

  lemma FifoStarts(single: nat, threshold: nat, bytes: seq<Byte>)
    ensures F.Init(single, threshold, bytes) == F.State(single, threshold, 0, 0, 0, 0, false, bytes)
  {
  }

  lemma InitIs(fifo: F.State, ring: R.Run, oneShot: bool)
    ensures P.Init(fifo, ring, oneShot)
         == P.State(fifo, ring, 0, 0, if oneShot then 0 else 2, oneShot, true, P.Collecting, P.AtHalt, 1, [], [])
    ensures BytesOf([]) == []
  {
  }

  lemma EndBytes(log: seq<P.Chunk>)
    ensures BytesOf(log + [P.EndOfCapture]) == BytesOf(log) + [3, 0, 0, 0, 0]
  {
    BytesSnoc(log, P.EndOfCapture);
  }

  /** A step of the sender, by where it is. */
  lemma StepIs(p: P.State)
    requires p.fifo.Valid() && p.ring.buffer.Placed() && P.SenderEnabled(p)
    ensures p.sender == P.AtHalt
        ==> p.haltPipeline > 0 && P.SenderStep(p) == p.(haltPipeline := p.haltPipeline - 1, sender := P.AtTest)
    ensures p.sender == P.AtSem
        ==> p.senderSem > 0 && P.SenderStep(p) == p.(senderSem := p.senderSem - 1, sender := P.Woken)
    ensures p.sender == P.Woken ==> P.SenderStep(p) == P.ReadStep(p)
    ensures p.sender == P.Holding ==>
      p.fifo.read <= p.fifo.readCommit <= |p.fifo.bytes| && P.SenderStep(p) == P.SendStep(p)
          && P.SendStep(p).sender == P.AtRing
    ensures p.sender == P.AtRing ==> P.SenderStep(p) == P.DrainStep(p) && P.DrainStep(p).sender == P.AtTest
    ensures p.sender == P.AtTest ==>
      P.SenderStep(p) == if p.length > 0 || !p.ring.buffer.IsDone() then p.(sender := P.AtSem)
                         else if p.ring.buffer.localCapture then p.(sender := P.Exited)
                         else p.(sender := P.Exited, log := p.log + [P.EndOfCapture])
  {
    hide P.ReadStep, F.State.Release, R.Apply, GatorBuffer.State.IsDone, GatorBuffer.State.Outgoing;
  }

  lemma EndIs(p: P.State)
    ensures P.End(p) == p.(active := false, haltPipeline := p.haltPipeline + 1)
  {
  }

  /** The FIFO filled, before the one-shot check. */
  ghost function Filled(p: P.State, data: seq<Byte>, count: int): P.State
    requires p.fifo.write + |data| <= |p.fifo.bytes|
  {
    p.(fifo := p.fifo.Fill(data), collector := P.Collected(count))
  }

  lemma CollectFacts(p: P.State, data: seq<Byte>, count: int)
    requires P.Inv(p) && P.Enabled(p, P.Collect(data, count))
    ensures p.fifo.Valid() && !p.fifo.IsFull() && |data| <= p.fifo.single && count <= p.fifo.single
    ensures p.fifo.write + |data| <= |p.fifo.bytes|
    ensures P.Inv(P.CollectStep(p, data, count))
    ensures var q := Filled(p, data, count);
            && q == p.(fifo := p.fifo.Fill(data), collector := P.Collected(count))
            && P.CollectStep(p, data, count)
               == if p.oneShot && p.active && (count == -1 || q.fifo.WillFill(count)) then P.End(q) else q
  {
    P.CollectKeeps(p, data, count);
    F.FreeRegion(p.fifo);
    hide P.FifoPart, P.RingPart, R.Inv, F.State.Fill, F.State.WillFill, P.End;
  }

  lemma PublishFacts(p: P.State)
    requires P.Inv(p) && p.collector.Collected?
    ensures p.fifo.Valid() && !p.fifo.IsFull() && p.collector.count <= p.fifo.single
    ensures p.fifo.write + F.Count(p.collector.count) <= |p.fifo.bytes| && P.Inv(P.PublishStep(p))
    ensures var q := P.PublishStep(p);
            && q == p.(fifo := p.fifo.Publish(p.collector.count), written := q.written, senderSem := p.senderSem + 1,
                       collector := q.collector)
            && !q.collector.Collected?
  {
    F.FreeRegion(p.fifo);
    hide P.FifoPart, P.RingPart, R.Inv;
    P.PublishKeeps(p);
  }

  lemma GuardFacts(p: P.State)
    requires P.Inv(p) && p.collector.AtGuard?
    ensures P.Inv(P.GuardStep(p)) && p.fifo.IsFull() == p.fifo.WillFill(0) == P.GuardStep(p).collector.Blocked?
    ensures P.GuardStep(p) == p.(collector := P.GuardStep(p).collector) && !P.GuardStep(p).collector.Collected?
  {
    P.CollectorWaitKeeps(p, P.Guard);
    hide P.Inv, F.State.WillFill;
  }

  lemma SpaceFacts(p: P.State)
    requires P.Inv(p) && P.Enabled(p, P.SpaceWait)
    ensures p.collector.Blocked? && p.spaceSem > 0 && P.Inv(P.SpaceWaitStep(p))
    ensures P.SpaceWaitStep(p) == p.(spaceSem := p.spaceSem - 1, collector := P.SpaceWaitStep(p).collector)
    ensures !P.SpaceWaitStep(p).collector.Collected?
  {
    P.CollectorWaitKeeps(p, P.SpaceWait);
    hide P.Inv;
  }

  /** A step of another thread, by what it is. */
  lemma NextIs(p: P.State, a: P.Action)
    requires P.Inv(p) && P.Enabled(p, a) && !a.Sender?
    ensures p.ring.buffer.Placed() && P.Inv(P.Next(p, a))
    ensures match a
            case Collect(data, count) =>
              p.fifo.write + |data| <= |p.fifo.bytes| && P.Next(p, a) == P.CollectStep(p, data, count)
            case Publish =>
              && p.collector.Collected? && p.fifo.write + F.Count(p.collector.count) <= |p.fifo.bytes|
              && P.Next(p, a) == P.PublishStep(p)
            case Guard => p.collector.AtGuard? && P.Next(p, a) == P.GuardStep(p)
            case SpaceWait => p.collector.Blocked? && p.spaceSem > 0 && P.Next(p, a) == P.SpaceWaitStep(p)
            case Counters(call) => call != R.Write && P.Next(p, a) == P.CountersStep(p, call)
            case EndSession => P.Next(p, a) == P.End(p)
            case Sender => true
  {
    P.NextKeepsInv(p, a);
    RingIsSound(p);
    if a.Collect? || a.Publish? {
      CanStore(p, a);
    }
    hide P.Inv, P.CollectStep, P.PublishStep, P.CountersStep, R.Allowed, F.State.Valid, GatorBuffer.State.Placed;
  }

  lemma CanStore(p: P.State, a: P.Action)
    requires P.Inv(p) && P.Enabled(p, a) && (a.Collect? || a.Publish?)
    ensures a.Collect? ==> p.fifo.write + |a.data| <= |p.fifo.bytes|
    ensures a.Publish? ==> p.fifo.write + F.Count(p.collector.count) <= |p.fifo.bytes|
  {
    F.FreeRegion(p.fifo);
    hide P.FifoPart, P.RingPart, R.Inv, F.State.Valid, F.State.Unread, F.State.IsFull;
  }

  lemma ReadFacts(p: P.State)
    requires P.Inv(p) && p.sender == P.Woken
    ensures p.fifo.Valid() && p.fifo.readCommit == p.fifo.read
    ensures p.fifo.Read() == None <==> p.fifo.Unread() == [] && !p.fifo.end
    ensures p.fifo.Read() == None ==> P.ReadStep(p) == p.(sender := P.AtRing)
    ensures p.fifo.Read().Some? ==>
      var t := p.fifo.Read().value;
      && t == p.fifo.(readCommit := t.readCommit) && t.readCommit >= t.read
      && P.ReadStep(p) == p.(fifo := t, length := t.readCommit - t.read, sender := P.Holding)
  {
    hide P.FifoPart, P.RingPart, R.Inv;
    F.ReadHandsOutPrefix(p.fifo);
    hide F.State.Valid, F.State.Read, F.State.Unread, F.State.Held, F.State.Segments;
  }

  lemma SendFacts(p: P.State)
    requires P.Inv(p)
    ensures p.fifo.Valid() && p.fifo.read <= p.fifo.readCommit <= |p.fifo.bytes|
    ensures var data := p.fifo.bytes[p.fifo.read..p.fifo.readCommit];
            && P.SendStep(p) == p.(log := p.log + [P.FromFifo(data)], fifo := p.fifo.Release(),
                                   spaceSem := p.spaceSem + 1, sender := P.AtRing)
            && BytesOf(p.log + [P.FromFifo(data)]) == BytesOf(p.log) + data
  {
    hide P.FifoPart, P.RingPart, R.Inv, BytesOf, F.State.Release;
    BytesSnoc(p.log, P.FromFifo(p.fifo.bytes[p.fifo.read..p.fifo.readCommit]));
  }

  lemma DrainFacts(p: P.State)
    requires P.Inv(p)
    ensures p.ring.buffer.Placed() && p.ring.buffer.Outgoing() == R.Committed(p.ring.buffer)
    ensures var out := p.ring.buffer.Outgoing();
            && P.DrainStep(p) == (if p.ring.buffer.IsDone() then p.(sender := P.AtTest)
                                  else p.(log := p.log + [P.FromRing(out)], ring := R.Apply(p.ring, R.Write),
                                          sender := P.AtTest))
            && BytesOf(p.log + [P.FromRing(out)]) == BytesOf(p.log) + out
  {
    hide P.FifoPart, P.RingPart, BytesOf, R.Apply, GatorBuffer.State.Outgoing, R.Committed, GatorBuffer.State.IsDone;
    R.OutgoingIsCommitted(p.ring.buffer);
    BytesSnoc(p.log, P.FromRing(p.ring.buffer.Outgoing()));
  }

  /** A new ring has nothing that is ready to be sent. */
  lemma RingStarts(size: nat, localCapture: bool, liveRate: nat, buftype: Int32, core: Int32, bytes: seq<Byte>)
    requires 256 <= size <= MAX_SIZE && |bytes| == size
    ensures !GatorBuffer.Init(size, localCapture, liveRate, buftype, core, bytes).CommitReady()
  {
    hide Put, Pack32;
  }
}
