/** The block-counter buffer as the mutable object it is: an array and positions updated in place. The
    ghost field `run` follows every call, so the invariant of whole runs is part of `Valid`. */
module GatorBufferClass {
  import opened Basics
  import opened Leb128
  import opened Ring
  import opened GatorBuffer
  import opened GatorFraming
  import opened GatorBufferRuns

  /** Where `write` sends to: the data stream of the session. */
  class Sender {
    var sent: seq<Byte>

    constructor ()
      ensures sent == []
    {
      sent := [];
    }

    method WriteData(data: array<Byte>, start: nat, length: nat)
      requires start + length <= data.Length
      modifies this
      ensures sent == old(sent) + data[start..start + length]
    {
      sent := sent + data[start..start + length];
    }
  }

  class Buffer {
    const size: nat
    const localCapture: bool
    const liveRate: nat
    const buftype: Int32
    const core: Int32
    var readPos: nat
    var writePos: nat
    var commitPos: nat
    var available: bool
    var done: bool
    var commitTime: nat
    const buf: array<Byte>
    const readerSem: Semaphore
    ghost var run: Run

    ghost function Value(): State
      reads this, buf
    {
      State(size, localCapture, liveRate, buftype, core, readPos, writePos, commitPos,
            available, done, commitTime, buf[..])
    }

    ghost predicate Valid()
      reads this, buf
    {
      run.buffer == Value() && Inv(run)
    }

    constructor (localCapture: bool, liveRate: nat, core: Int32, buftype: Int32, size: nat,
                 readerSem: Semaphore)
      requires IsPowerOfTwo(size) && 256 <= size <= MAX_SIZE
      ensures Valid() && fresh(buf) && this.readerSem == readerSem
      ensures !run.ticking && run.history == History([], [], []) && !done
      ensures run.buffer == Init(size, localCapture, liveRate, buftype, core, seq(size, _ => 0))
    {
      this.size, this.localCapture, this.liveRate := size, localCapture, liveRate;
      this.buftype, this.core, this.readerSem := buftype, core, readerSem;
      readPos, writePos, commitPos, available, done := 0, 0, 0, true, false;
      commitTime := liveRate;
      buf := new Byte[size](_ => 0);
      new;
      assert buf[..] == seq(size, _ => 0);
      Frame();
      run := Run(Value(), false, History([], [], []));
      InitInv(size, localCapture, liveRate, buftype, core, seq(size, _ => 0));
    }

    /** The stores of one packed integer. The original has them unrolled, one branch for every length;
        `Pack32` and `Pack64` list what each branch stores. */
    method Emit(code: seq<Byte>)
      requires buf.Length == size && 256 <= size && writePos < size + 4 && |code| <= 10
      modifies this`writePos, buf
      ensures Value() == old(Value()).Pack(code)
    {
      ghost var before := buf[..];
      var at := Masked(writePos, size);
      assert Put(before, at, []) == before;
      for i := 0 to |code|
        invariant buf[..] == Put(before, at, code[..i])
        modifies buf
      {
        PutAppend(before, at, code[..i], code[i]);
        assert code[..i + 1] == code[..i] + [code[i]];
        buf[Masked(at + i, size)] := code[i];
      }
      assert code[..|code|] == code;
      writePos := Masked(writePos + |code|, size);
    }

    method Reserve()
      requires Value().Placed()
      modifies this`writePos, buf
      ensures Value() == old(Value()).Reserve()
    {
      CodesAreShort(RESPONSE_APC_DATA);
      if !localCapture {
        Emit(Pack32(RESPONSE_APC_DATA));
      }
      writePos := writePos + 4;
    }

    method Frame()
      requires Value().Placed()
      modifies this`writePos, buf
      ensures Value() == old(Value()).Frame()
    {
      CodesAreShort(buftype);
      CodesAreShort(core);
      Reserve();
      Emit(Pack32(buftype));
      Emit(Pack32(core));
    }

    method BytesAvailable() returns (remaining: int)
      requires Value().Placed()
      ensures remaining == Value().BytesAvailable()
      ensures remaining <= size - Filled(Value()) - 200
    {
      var filled := writePos - readPos;
      if filled < 0 {
        filled := filled + size;
      }
      remaining := size - filled;
      if available {
        remaining := remaining - 200;
      } else {
        remaining := remaining - 2000;
      }
    }

    method CheckSpace(bytes: nat) returns (ok: bool)
      requires Value().Placed()
      modifies this`available
      ensures Value() == old(Value()).CheckSpace(bytes) && ok == available
    {
      var remaining := BytesAvailable();
      if remaining < bytes {
        available := false;
      } else {
        available := true;
      }
      ok := available;
    }

    /** The live clock catches up with the time of a commit. */
    method CatchUp(time: nat)
      requires liveRate > 0
      modifies this`commitTime
      ensures commitTime == Advance(old(commitTime), liveRate, time) >= time
      ensures commitTime < time + liveRate || commitTime == old(commitTime)
    {
      while time > commitTime
        invariant Advance(commitTime, liveRate, time) == Advance(old(commitTime), liveRate, time)
        invariant commitTime < time + liveRate || commitTime == old(commitTime)
        decreases time - commitTime
      {
        commitTime := commitTime + liveRate;
      }
    }

    /** `commit` but for the frame that follows and the notification. */
    method Close(time: nat)
      requires Value().Placed()
      modifies this`commitPos, this`commitTime, buf
      ensures Value() == Closed(old(Value()), time)
    {
      hide *;
      ghost var before := Value();
      ValueIs();
      PlacedIs();
      ClosedIs(before, time);
      var typeLength := if localCapture then 0 else 1;
      var length := SinceCommit();
      length := length - typeLength - 4;
      MaskedIs(commitPos + typeLength, size);
      StoreLength(Masked(commitPos + typeLength, size), length);
      commitPos := writePos;
      if liveRate > 0 {
        CatchUp(time);
      }
      ValueIs();
    }

    lemma PlacedIs()
      ensures Value().Placed() <==>
        && buf.Length == size && 256 <= size <= MAX_SIZE && readPos < size && commitPos < size && writePos < size
    {
    }

    method Commit(time: nat)
      requires Value().Placed()
      modifies this`commitPos, this`commitTime, this`writePos, buf, readerSem
      ensures Value() == old(Value()).Commit(time)
      ensures readerSem.count == old(readerSem.count) + 1
    {
      hide Put, Pack32, LengthBytes, Advance, State.Reserve;
      Close(time);
      if !done {
        Frame();
      }
      readerSem.Post();
    }

    /** The loop over the four bytes of the length field. */
    method StoreLength(at: nat, length: int)
      requires buf.Length == size && 256 <= size && at < size
      modifies buf
      ensures buf[..] == Put(old(buf[..]), at, LengthBytes(length))
    {
      ghost var before := buf[..];
      var field := LengthBytes(length);
      assert Put(before, at, []) == before;
      for byte := 0 to 4
        invariant buf[..] == Put(before, at, field[..byte])
      {
        PutAppend(before, at, field[..byte], field[byte]);
        assert field[..byte + 1] == field[..byte] + [field[byte]];
        buf[Masked(at + byte, size)] := field[byte];
      }
      assert field[..4] == field;
    }

    method SinceCommit() returns (filled: int)
      requires Value().Placed()
      ensures filled == Gap(commitPos, writePos, size)
    {
      filled := writePos - commitPos;
      if filled < 0 {
        filled := filled + size;
      }
    }

    method Check(now: nat)
      requires Valid() && Allowed(run, GatorBufferRuns.Check(now))
      modifies this, buf, readerSem
      ensures Valid() && run == Apply(old(run), GatorBufferRuns.Check(now))
      ensures readerSem.count == old(readerSem.count) + if old(Value()).CommitDue(now) then 1 else 0
    {
      ApplyKeepsInv(run, GatorBufferRuns.Check(now));
      ghost var next := Apply(run, GatorBufferRuns.Check(now));
      var filled := SinceCommit();
      if filled >= size * 3 / 4 || (liveRate > 0 && now >= commitTime) {
        Commit(now);
      }
      run := next;
    }

    method EventHeader(time: Int64) returns (ok: bool)
      requires Valid() && Allowed(run, Header(time))
      modifies this, buf
      ensures Valid() && run == Apply(old(run), Header(time)) && ok == run.ticking
    {
      ApplyKeepsInv(run, Header(time));
      ghost var next := Apply(run, Header(time));
      CodesAreShort(0);
      LongCodesAreShort(time);
      ok := CheckSpace(MAXSIZE_PACK32 + MAXSIZE_PACK64);
      if ok {
        Emit(Pack32(0));
        Emit(Pack64(time));
      }
      run := next;
    }

    method Event(key: Int32, value: Int32)
      requires Valid() && Allowed(run, GatorBufferRuns.Event(key, value))
      modifies this, buf
      ensures Valid() && run == Apply(old(run), GatorBufferRuns.Event(key, value))
    {
      ApplyKeepsInv(run, GatorBufferRuns.Event(key, value));
      ghost var next := Apply(run, GatorBufferRuns.Event(key, value));
      CodesAreShort(key);
      CodesAreShort(value);
      var ok := CheckSpace(2 * MAXSIZE_PACK32);
      if ok {
        Emit(Pack32(key));
        Emit(Pack32(value));
      }
      run := next;
    }

    method Event64(key: Int64, value: Int64)
      requires Valid() && Allowed(run, GatorBufferRuns.Event64(key, value))
      modifies this, buf
      ensures Valid() && run == Apply(old(run), GatorBufferRuns.Event64(key, value))
    {
      ApplyKeepsInv(run, GatorBufferRuns.Event64(key, value));
      ghost var next := Apply(run, GatorBufferRuns.Event64(key, value));
      LongCodesAreShort(key);
      LongCodesAreShort(value);
      var ok := CheckSpace(2 * MAXSIZE_PACK64);
      if ok {
        Emit(Pack64(key));
        Emit(Pack64(value));
      }
      run := next;
    }

    method SetDone()
      requires Valid() && Allowed(run, GatorBufferRuns.SetDone)
      modifies this, buf, readerSem
      ensures Valid() && run == Apply(old(run), GatorBufferRuns.SetDone) && done
      ensures readerSem.count == old(readerSem.count) + 1
    {
      ApplyKeepsInv(run, GatorBufferRuns.SetDone);
      ghost var next := Apply(run, GatorBufferRuns.SetDone);
      done := true;
      Commit(0);
      run := next;
    }

    method IsDone() returns (d: bool)
      ensures d == Value().IsDone()
    {
      d := done && readPos == commitPos && commitPos == writePos;
    }

    /** `write`: the sender receives exactly the committed bytes, in at most two pieces. */
    method Write(sender: Sender)
      requires Valid()
      modifies this, sender
      ensures Valid() && run == Apply(old(run), GatorBufferRuns.Write)
      ensures sender.sent == old(sender.sent) + old(Committed(Value()))
    {
      hide *;
      ghost var next := WriteIs();
      ValueIs();
      if commitPos != readPos {
        Send(sender);
        readPos := commitPos;
      }
      run := next;
      ValueIs();
    }

    /** What `write` does to the ring, and what it hands over. */
    lemma WriteIs() returns (next: Run)
      requires Valid()
      ensures next == Apply(run, GatorBufferRuns.Write) && Inv(next)
      ensures Value().Placed() && Value().CommitReady() == (commitPos != readPos)
      ensures Committed(Value()) == if commitPos != readPos then Value().Outgoing() else []
      ensures next.buffer == Value().(readPos := commitPos) && Value().readPos == readPos
    {
      ApplyKeepsInv(run, GatorBufferRuns.Write);
      OutgoingIsCommitted(Value());
      next := Apply(run, GatorBufferRuns.Write);
      hide Inv, Committed, Slice;
    }

    lemma ValueIs()
      ensures Valid() <==> run.buffer == Value() && Inv(run)
      ensures Value() == State(size, localCapture, liveRate, buftype, core, readPos, writePos, commitPos,
                               available, done, commitTime, buf[..])
    {
      hide Inv;
    }

    /** The two calls of the sender in `write`. */
    method Send(sender: Sender)
      requires Value().Placed() && Value().CommitReady()
      modifies sender
      ensures sender.sent == old(sender.sent) + Value().Outgoing()
    {
      var length1: int := commitPos - readPos;
      var length2 := 0;
      if length1 < 0 {
        length1 := size - readPos;
        length2 := commitPos;
      }
      if length1 > 0 {
        sender.WriteData(buf, readPos, length1);
      }
      if length2 > 0 {
        sender.WriteData(buf, 0, length2);
        Associate(old(sender.sent), buf[readPos..], buf[..commitPos]);
      }
    }
  }

  lemma MaskedIs(p: nat, size: nat)
    requires p < 2 * size
    ensures Masked(p, size) < size
  {
  }

  lemma ClosedIs(s: State, time: nat)
    requires s.Placed()
    ensures var typeLength := if s.localCapture then 0 else 1;
            && s.commitPos + typeLength < 2 * s.size
            && Closed(s, time)
               == s.(bytes := Put(s.bytes, Masked(s.commitPos + typeLength, s.size),
                                  LengthBytes(Gap(s.commitPos, s.writePos, s.size) - typeLength - 4)),
                     commitPos := s.writePos,
                     commitTime := if s.liveRate > 0 then Advance(s.commitTime, s.liveRate, time) else s.commitTime)
  {
    hide Put, LengthBytes, Advance;
  }
}
