/** When the block-counter buffer commits and what it accepts (arm/gator-daemon/Buffer.cpp:67-141, 312-350),
    in numbers. */
module RingLaws {
  import opened Basics
  import opened Leb128
  import opened Ring
  import opened GatorBuffer
  import opened GatorFraming
  import opened GatorBufferRuns

  /** The bytes from a forward to b. */
  function Distance(a: nat, b: nat, size: nat): int {
    if b < a then b + size - a else b - a
  }

  /** Three quarters of the ring are not committed, or there is a live rate and its time has come. */
  predicate Overdue(s: State, now: nat) {
    Distance(s.commitPos, s.writePos, s.size) >= s.size * 3 / 4 || (s.liveRate > 0 && s.commitTime <= now)
  }

  lemma FrameIsShort(s: State)
    requires Region(s) && s.commitPos == s.writePos && Filled(s) + 15 < s.size
    ensures var t := s.Frame();
            && t == s.(bytes := t.bytes, writePos := t.writePos) && t.writePos < s.size
            && Distance(t.commitPos, t.writePos, t.size) <= 15
  {
    FrameOpens(s);
    hide State.Frame, OpenFrame, Committed, OpenPart, Slice;
  }

  /** The live clock goes on in whole steps, no further than it must. */
  lemma Advanced(commitTime: nat, rate: nat, time: nat) returns (k: nat)
    requires rate > 0
    ensures var t := Advance(commitTime, rate, time);
            time <= t && t == commitTime + k * rate && (t < time + rate || t == commitTime)
    decreases time - commitTime
  {
    if time > commitTime {
      k := Advanced(commitTime + rate, rate, time);
      assert (k + 1) * rate == k * rate + rate;
      k := k + 1;
    } else {
      k := 0;
    }
  }

  /** What a commit does to the positions and the clock. */
  lemma CommitLaw(s: State, now: nat)
    requires Region(s) && Filled(s) + 15 < s.size
    ensures var t := s.Commit(now);
            && t.commitPos == s.writePos && t.readPos == s.readPos && t.done == s.done && t.available == s.available
            && t.writePos < t.size == s.size && Distance(t.commitPos, t.writePos, t.size) <= 15
            && (s.done ==> t.writePos == s.writePos)
            && t.commitTime == if s.liveRate > 0 then Advance(s.commitTime, s.liveRate, now) else s.commitTime
  {
    var c := Closed(s, now);
    ClosedRegion(s, now);
    hide Put, LengthBytes, Advance, Slice;
    if !s.done {
      FrameIsShort(c);
    }
    hide State.Frame;
  }

  lemma ClosedRegion(s: State, now: nat)
    requires Region(s)
    ensures Region(Closed(s, now)) && Filled(Closed(s, now)) == Filled(s)
    ensures s.Commit(now) == if s.done then Closed(s, now) else Closed(s, now).Frame()
  {
    hide Put, LengthBytes, Advance, State.Frame;
  }

  /** After `check` less than three quarters of the ring are not committed, and the live clock is not behind. It
      commits exactly what is there if one of them was otherwise before, and else does nothing. */
  lemma CheckLaw(s: State, now: nat)
    requires Region(s) && Filled(s) + 15 < s.size
    ensures var t := s.Check(now);
            && Distance(t.commitPos, t.writePos, t.size) < t.size * 3 / 4
            && (t.liveRate > 0 ==> now <= t.commitTime)
            && (if Overdue(s, now) then t.commitPos == s.writePos && t == s.Commit(now) else t == s)
  {
    CommitLaw(s, now);
    if s.liveRate > 0 {
      var k := Advanced(s.commitTime, s.liveRate, now);
    }
    hide State.Commit;
  }

  /** In every run: a check turns the records since the last commit into a frame exactly if three quarters of the
      ring are not committed or the live rate's time has come. */
  lemma CheckInRuns(r: Run, now: nat)
    requires Inv(r) && r.ticking
    ensures r.buffer.Placed()
    ensures var t := Apply(r, Check(now));
            && Distance(t.buffer.commitPos, t.buffer.writePos, t.buffer.size) < t.buffer.size * 3 / 4
            && (t.buffer.liveRate > 0 ==> now <= t.buffer.commitTime)
            && t.history == if Overdue(r.buffer, now)
                            then r.history.(frames := r.history.frames + [r.history.open], open := [])
                            else r.history
    ensures !Overdue(r.buffer, now) ==> Apply(r, Check(now)).buffer == r.buffer
  {
    InvIs(r);
    CheckLaw(r.buffer, now);
    OverdueIsDue(r.buffer, now);
    hide Inv, State.Check, State.CommitDue, Overdue, OpenFrame, Lengths, Format.Stream;
  }

  lemma OverdueIsDue(s: State, now: nat)
    requires s.Placed()
    ensures s.CommitDue(now) <==> Overdue(s, now)
  {
  }

  // ----- what is accepted

  /** Room for n bytes: a margin of 200 stays free, and once something has been refused, one of 2000. */
  predicate Room(s: State, n: nat) {
    s.size - Distance(s.readPos, s.writePos, s.size) >= n + if s.available then 200 else 2000
  }

  /** A time is recorded exactly if there is room for fifteen bytes, a counter of two int32 for ten, and one of two
      int64 for twenty; what is refused leaves nothing but a mark in the buffer. */
  lemma AcceptedExactly(r: Run, time: Int64, key: Int32, value: Int32, key64: Int64, value64: Int64)
    requires r.buffer.Placed()
    ensures var t, h := Apply(r, Header(time)), r.history;
            if Room(r.buffer, 15) then
              t.ticking && t.buffer.available && t.history == h.(open := h.open + [Timestamp(time)])
            else t == Run(r.buffer.(available := false), false, h)
    ensures var t, h := Apply(r, Event(key, value)), r.history;
            if Room(r.buffer, 10) then
              t.buffer.available && t.history == h.(open := h.open + [Counter(key, value)])
            else t == r.(buffer := r.buffer.(available := false))
    ensures var t, h := Apply(r, Event64(key64, value64)), r.history;
            if Room(r.buffer, 20) then
              t.buffer.available && t.history == h.(open := h.open + [Counter64(key64, value64)])
            else t == r.(buffer := r.buffer.(available := false))
  {
    hide Put, Pack32, Pack64;
  }

  // ----- what a frame begins with

  /** A frame that is sent begins with the type byte 3; one that is stored has none. */
  lemma TypeByte(f: Format, rs: seq<Record>)
    ensures f.localCapture ==> f.TypeBytes() == []
    ensures !f.localCapture ==> f.TypeBytes() == [3] && f.FrameBytes(rs)[0] == 3
    ensures f.FrameBytes(rs) == f.TypeBytes() + LengthBytes(|f.Payload(rs)|) + f.Payload(rs)
  {
    assert Pack32(3) == [3];
  }

  /** A new ring: empty but for the header of a frame, with room, and with the live clock one step on. */
  lemma NewRing(size: nat, localCapture: bool, liveRate: nat, buftype: Int32, core: Int32, bytes: seq<Byte>)
    requires 256 <= size <= MAX_SIZE && |bytes| == size
    ensures var s := GatorBuffer.Init(size, localCapture, liveRate, buftype, core, bytes);
            && s.size == size && s.localCapture == localCapture && s.liveRate == liveRate
            && s.buftype == buftype && s.core == core && s.readPos == 0 && s.commitPos == 0
            && s.available && !s.done && s.commitTime == liveRate
            && OpenFrame(Format(localCapture, buftype, core), OpenPart(s), [])
  {
    var r := Run(GatorBuffer.Init(size, localCapture, liveRate, buftype, core, bytes), false, History([], [], []));
    InitInv(size, localCapture, liveRate, buftype, core, bytes);
    InvIs(r);
    NewFields(size, localCapture, liveRate, buftype, core, bytes);
    hide Inv, OpenFrame, OpenPart, Committed, GatorBuffer.Init;
  }

  lemma NewFields(size: nat, localCapture: bool, liveRate: nat, buftype: Int32, core: Int32, bytes: seq<Byte>)
    requires 256 <= size <= MAX_SIZE && |bytes| == size
    ensures var s := GatorBuffer.Init(size, localCapture, liveRate, buftype, core, bytes);
            && s.size == size && s.localCapture == localCapture && s.liveRate == liveRate
            && s.buftype == buftype && s.core == core && s.readPos == 0 && s.commitPos == 0
            && s.available && !s.done && s.commitTime == liveRate
  {
    hide Put, Pack32;
  }
}
