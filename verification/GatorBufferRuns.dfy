/** Whole runs of the block-counter buffer: what every call keeps, and what the sender has been handed
    at any moment of any run driven as the counters thread and the sender thread drive it
    (arm/gator-daemon/Child.cpp:176-190 and 211-213). */
module GatorBufferRuns {
  import opened Basics
  import opened Leb128
  import opened Ring
  import opened GatorBuffer
  import opened GatorFraming

  function FormatOf(s: State): Format {
    Format(s.localCapture, s.buftype, s.core)
  }

  /** The three positions lie in the order read, commit, write around the ring. */
  predicate Region(s: State) {
    && s.Placed()
    && Gap(s.readPos, s.commitPos, s.size) + Gap(s.commitPos, s.writePos, s.size)
       == Gap(s.readPos, s.writePos, s.size)
  }

  function Filled(s: State): nat
    requires s.Placed()
  {
    Gap(s.readPos, s.writePos, s.size)
  }

  function Committed(s: State): seq<Byte>
    requires s.Placed()
  {
    Slice(s.bytes, s.readPos, Gap(s.readPos, s.commitPos, s.size))
  }

  function OpenPart(s: State): seq<Byte>
    requires s.Placed()
  {
    Slice(s.bytes, s.commitPos, Gap(s.commitPos, s.writePos, s.size))
  }

  /** The bytes of a frame whose length field is still to be filled in. */
  predicate OpenFrame(f: Format, o: seq<Byte>, rs: seq<Record>) {
    var t := |f.TypeBytes()|;
    |o| >= t + 4 && o[..t] == f.TypeBytes() && o[t + 4..] == f.Payload(rs)
  }

  // ----- the ring under one packed code, one reserved length field, one commit

  lemma PackExtends(s: State, code: seq<Byte>)
    requires Region(s) && |code| <= 10 && Filled(s) + |code| < s.size
    ensures var t := s.Pack(code);
            && Region(t) && Filled(t) == Filled(s) + |code|
            && Committed(t) == Committed(s) && OpenPart(t) == OpenPart(s) + code
  {
    var c := Gap(s.commitPos, s.writePos, s.size);
    var k := Gap(s.readPos, s.commitPos, s.size);
    PutExtends(s.bytes, s.commitPos, c, code);
    PutExtends(s.bytes, s.readPos, Filled(s), code);
    var r := Put(s.bytes, s.writePos, code);
    SlicePrefix(r, s.readPos, k, Filled(s) + |code|);
    SlicePrefix(s.bytes, s.readPos, k, Filled(s));
    DropOfConcat(Slice(s.bytes, s.readPos, Filled(s)), code, k);
    hide Put, Slice;
  }

  function Skip(s: State): State
    requires s.Placed()
  {
    s.(writePos := Masked(s.writePos + 4, s.size))
  }

  lemma SkipExtends(s: State)
    requires Region(s) && Filled(s) + 4 < s.size
    ensures var t := Skip(s);
            && Region(t) && Filled(t) == Filled(s) + 4 && Committed(t) == Committed(s)
            && |OpenPart(t)| == |OpenPart(s)| + 4 && OpenPart(t)[..|OpenPart(s)|] == OpenPart(s)
  {
  }

  /** Leaving the write position unmasked after reserving the length is harmless. */
  lemma UnmaskedSkip(s: State, code: seq<Byte>)
    requires s.Placed() && |code| <= 10
    ensures s.(writePos := s.writePos + 4).Pack(code) == Skip(s).Pack(code)
  {
  }

  /** Packing changes only the bytes and the write position. */
  predicate OnlyWrote(s: State, t: State) {
    t == s.(bytes := t.bytes, writePos := t.writePos)
  }

  lemma TypeOpens(s: State) returns (a: State)
    requires Region(s) && s.commitPos == s.writePos && Filled(s) + 1 < s.size
    ensures a == if s.localCapture then s else s.Pack(Pack32(RESPONSE_APC_DATA))
    ensures Region(a) && OnlyWrote(s, a) && Filled(a) <= Filled(s) + 1 && Committed(a) == Committed(s)
    ensures OpenPart(a) == FormatOf(s).TypeBytes()
  {
    a := if s.localCapture then s else s.Pack(Pack32(RESPONSE_APC_DATA));
    if !s.localCapture {
      PackExtends(s, Pack32(RESPONSE_APC_DATA));
    }
  }

  lemma SkipOpens(a: State, f: Format) returns (b: State)
    requires Region(a) && Filled(a) + 4 < a.size && OpenPart(a) == f.TypeBytes()
    requires |Pack32(a.buftype)| <= 10
    ensures b == Skip(a) && Region(b) && Filled(b) == Filled(a) + 4 && Committed(b) == Committed(a)
    ensures |OpenPart(b)| == |f.TypeBytes()| + 4 && OpenPart(b)[..|f.TypeBytes()|] == f.TypeBytes()
    ensures a.(writePos := a.writePos + 4).Pack(Pack32(a.buftype)) == b.Pack(Pack32(a.buftype))
  {
    SkipExtends(a);
    UnmaskedSkip(a, Pack32(a.buftype));
    b := Skip(a);
  }

  lemma TwoCodesOpen(b: State, f: Format)
    requires Region(b) && Filled(b) + 10 < b.size && f == FormatOf(b)
    requires |OpenPart(b)| == |f.TypeBytes()| + 4 && OpenPart(b)[..|f.TypeBytes()|] == f.TypeBytes()
    requires |Pack32(b.buftype)| <= 5 && |Pack32(b.core)| <= 5
    ensures var t := b.Pack(Pack32(b.buftype)).Pack(Pack32(b.core));
            && Region(t) && Filled(t) <= Filled(b) + 10 && Committed(t) == Committed(b)
            && OpenFrame(f, OpenPart(t), [])
  {
    hide Put, Slice, Pack32;
    PackExtends(b, Pack32(b.buftype));
    PackExtends(b.Pack(Pack32(b.buftype)), Pack32(b.core));
    var n := |OpenPart(b)|;
    var o := OpenPart(b) + Pack32(b.buftype) + Pack32(b.core);
    assert o[n..] == Pack32(b.buftype) + Pack32(b.core);
    assert f.Payload([]) == Pack32(b.buftype) + Pack32(b.core);
  }

  lemma ReserveIs(s: State)
    requires s.Placed()
    ensures |Pack32(RESPONSE_APC_DATA)| <= 5
    ensures var a := if s.localCapture then s else s.Pack(Pack32(RESPONSE_APC_DATA));
            s.Reserve() == a.(writePos := a.writePos + 4)
  {
  }

  lemma FrameOpens(s: State)
    requires Region(s) && s.commitPos == s.writePos && Filled(s) + 15 < s.size
    ensures var t := s.Frame();
            && Region(t) && OnlyWrote(s, t) && Filled(t) <= Filled(s) + 15 && Committed(t) == Committed(s)
            && OpenFrame(FormatOf(s), OpenPart(t), [])
  {
    hide *;
    OnlyWroteIs(s, s);
    FrameIs(s);
    var a := TypeOpens(s);
    OnlyWroteIs(s, a);
    var b := SkipOpens(a, FormatOf(s));
    SkipIs(a);
    OnlyWroteIs(a, b);
    TwoCodesOpen(b, FormatOf(s));
    ReserveIs(s);
    CodesOnlyWrite(b);
    OnlyWroteIs(s, s.Frame());
  }

  lemma FrameIs(s: State)
    requires s.Placed()
    ensures |Pack32(s.buftype)| <= 5 && |Pack32(s.core)| <= 5
    ensures var q := s.Reserve();
            && q.buftype == s.buftype && s.Frame() == q.Pack(Pack32(s.buftype)).Pack(Pack32(s.core))
  {
    CodesAreShort(s.buftype);
    CodesAreShort(s.core);
    hide Put, Pack32;
  }

  lemma OnlyWroteIs(s: State, t: State)
    ensures OnlyWrote(s, t) <==> t == s.(bytes := t.bytes, writePos := t.writePos)
    ensures OnlyWrote(s, t) ==> FormatOf(t) == FormatOf(s)
    ensures (Region(s) ==> s.Placed()) && (Region(t) ==> t.Placed())
  {
  }

  lemma SkipIs(s: State)
    requires s.Placed()
    ensures Skip(s) == s.(writePos := Skip(s).writePos) && OnlyWrote(s, Skip(s))
  {
  }

  lemma CodesOnlyWrite(s: State)
    requires s.Placed() && |Pack32(s.buftype)| <= 5 && |Pack32(s.core)| <= 5
    ensures var t := s.Pack(Pack32(s.buftype)).Pack(Pack32(s.core));
            t == s.(bytes := t.bytes, writePos := t.writePos)
  {
    hide Put, Pack32;
  }

  /** Filling in the length turns the open part into a finished frame. */
  lemma LengthCompletes(s: State, rs: seq<Record>)
    requires Region(s) && OpenFrame(FormatOf(s), OpenPart(s), rs)
    ensures s.CommitLength() == |FormatOf(s).Payload(rs)|
    ensures var r := Put(s.bytes, Masked(s.commitPos + s.TypeLength(), s.size), LengthBytes(s.CommitLength()));
            Slice(r, s.commitPos, |OpenPart(s)|) == FormatOf(s).FrameBytes(rs)
  {
    var t := s.TypeLength();
    assert |FormatOf(s).TypeBytes()| == t;
    PutWithin(s.bytes, s.commitPos, t, LengthBytes(s.CommitLength()), |OpenPart(s)|);
  }

  /** A store inside the open part leaves the committed part alone. */
  lemma StoreSparesCommitted(s: State, a: nat, code: seq<Byte>)
    requires Region(s) && a + |code| <= |OpenPart(s)| && code != []
    ensures var r := Put(s.bytes, Masked(s.commitPos + a, s.size), code);
            Slice(r, s.readPos, Filled(s)) == Committed(s) + Slice(r, s.commitPos, |OpenPart(s)|)
  {
    var k := |Committed(s)|;
    PutWithin(s.bytes, s.readPos, k + a, code, Filled(s));
    var r := Put(s.bytes, Masked(s.commitPos + a, s.size), code);
    assert Masked(s.readPos + k, s.size) == s.commitPos;
    assert Masked(s.readPos + (k + a), s.size) == Masked(s.commitPos + a, s.size);
    SliceSplits(r, s.readPos, k, |OpenPart(s)|);
    SlicePrefix(r, s.readPos, k, Filled(s));
    SlicePrefix(s.bytes, s.readPos, k, Filled(s));
    hide Put, Slice;
    var before := Slice(s.bytes, s.readPos, Filled(s));
    assert (before[..k + a] + code + before[k + a + |code|..])[..k] == before[..k];
  }

  /** `commit`, before it opens the next frame: the open part joins the committed part as a finished
      frame. */
  function Closed(s: State, time: nat): State
    requires s.Placed()
  {
    s.(bytes := Put(s.bytes, Masked(s.commitPos + s.TypeLength(), s.size), LengthBytes(s.CommitLength())),
       commitPos := s.writePos,
       commitTime := if s.liveRate > 0 then Advance(s.commitTime, s.liveRate, time) else s.commitTime)
  }

  lemma CommitCloses(s: State, rs: seq<Record>, time: nat)
    requires Region(s) && OpenFrame(FormatOf(s), OpenPart(s), rs)
    ensures var t := Closed(s, time);
            && Region(t) && Filled(t) == Filled(s) && t.commitPos == t.writePos
            && Committed(t) == Committed(s) + FormatOf(s).FrameBytes(rs)
            && |FormatOf(s).Payload(rs)| < TWO32
  {
    LengthCompletes(s, rs);
    assert |FormatOf(s).TypeBytes()| == s.TypeLength();
    StoreSparesCommitted(s, s.TypeLength(), LengthBytes(s.CommitLength()));
  }

  // ----- runs

  /** What has happened so far: the frames committed, the records accepted into the open frame, and
      every byte handed to the sender. */
  datatype History = History(frames: seq<seq<Record>>, open: seq<Record>, sent: seq<Byte>)

  /** One method call of one of the two threads. */
  datatype Call =
    | Header(time: Int64)
    | Event(key: Int32, value: Int32)
    | Event64(key64: Int64, value64: Int64)
    | Check(now: nat)
    | SetDone
    | Write

  /** `ticking` holds between an `eventHeader` that succeeded and the `check` that follows it. */
  datatype Run = Run(buffer: State, ticking: bool, history: History)

  /** The counters thread records events and checks only after a timestamp was accepted, and sets done
      last; the sender thread may write at any moment. */
  predicate Allowed(r: Run, c: Call) {
    match c
    case Header(_) => !r.ticking && !r.buffer.done
    case Event(_, _) => r.ticking
    case Event64(_, _) => r.ticking
    case Check(_) => r.ticking
    case SetDone => !r.ticking && !r.buffer.done
    case Write => true
  }

  function Accept(h: History, accepted: bool, r: Record): History {
    if accepted then h.(open := h.open + [r]) else h
  }

  function CloseFrame(h: History): History {
    h.(frames := h.frames + [h.open], open := [])
  }

  function Apply(r: Run, c: Call): Run
    requires r.buffer.Placed()
  {
    var s := r.buffer;
    match c
    case Header(time) =>
      var t := s.EventHeader(time);
      Run(t, t.available, Accept(r.history, t.available, Timestamp(time)))
    case Event(key, value) =>
      var t := s.Event(key, value);
      Run(t, r.ticking, Accept(r.history, t.available, Counter(key, value)))
    case Event64(key, value) =>
      var t := s.Event64(key, value);
      Run(t, r.ticking, Accept(r.history, t.available, Counter64(key, value)))
    case Check(now) =>
      Run(s.Check(now), false, if s.CommitDue(now) then CloseFrame(r.history) else r.history)
    case SetDone =>
      Run(s.SetDone(), false, CloseFrame(r.history))
    case Write =>
      Run(s.Drain(), r.ticking, r.history.(sent := r.history.sent + s.Outgoing()))
  }

  /** What holds of every reachable state: the ring holds, behind what was sent, the rest of the
      committed frames and then the open frame; and there is always room left for the overflow margin
      and a frame header. */
  ghost predicate Inv(r: Run) {
    var s, h, f := r.buffer, r.history, FormatOf(r.buffer);
    && Region(s)
    && Filled(s) <= s.size - (if r.ticking then 200 else 185)
    && h.sent + Committed(s) == f.Stream(h.frames)
    && Lengths(f, h.frames)
    && (s.done ==> !r.ticking)
    && if s.done then s.commitPos == s.writePos && h.open == []
       else OpenFrame(f, OpenPart(s), h.open)
  }

  lemma LengthsAppend(f: Format, frames: seq<seq<Record>>, rs: seq<Record>)
    requires Lengths(f, frames) && |f.Payload(rs)| < TWO32
    ensures Lengths(f, frames + [rs])
  {
  }

  lemma PayloadAppend(f: Format, rs: seq<Record>, r: Record)
    ensures f.Payload(rs + [r]) == f.Payload(rs) + Code(r)
  {
    CodesAppend(rs, r);
    Associate(Pack32(f.buftype) + Pack32(f.core), Codes(rs), Code(r));
  }

  lemma OpenFrameGrows(f: Format, o: seq<Byte>, a: seq<Byte>, b: seq<Byte>, rs: seq<Record>, r: Record)
    requires OpenFrame(f, o, rs) && Code(r) == a + b
    ensures OpenFrame(f, o + a + b, rs + [r])
  {
    PayloadAppend(f, rs, r);
    Associate(o, a, b);
    DropOfConcat(o, a + b, |f.TypeBytes()| + 4);
    DropOfConcat(o, a + b, |f.TypeBytes()|);
  }

  /** Packing the two codes of a record into the open frame. */
  lemma RecordExtends(s: State, a: seq<Byte>, b: seq<Byte>, rs: seq<Record>, r: Record)
    requires Region(s) && |a| <= 10 && |b| <= 10 && Filled(s) + |a| + |b| < s.size
    requires OpenFrame(FormatOf(s), OpenPart(s), rs) && Code(r) == a + b
    ensures var t := s.Pack(a).Pack(b);
            && Region(t) && OnlyWrote(s, t) && Filled(t) == Filled(s) + |a| + |b|
            && Committed(t) == Committed(s) && OpenFrame(FormatOf(s), OpenPart(t), rs + [r])
  {
    PackExtends(s, a);
    PackExtends(s.Pack(a), b);
    OpenFrameGrows(FormatOf(s), OpenPart(s), a, b, rs, r);
  }

  lemma HeaderKeeps(r: Run, time: Int64)
    requires Inv(r) && Allowed(r, Header(time))
    ensures Inv(Apply(r, Header(time)))
  {
    CodesAreShort(0);
    LongCodesAreShort(time);
    var s := r.buffer.CheckSpace(15);
    if s.available {
      RecordExtends(s, Pack32(0), Pack64(time), r.history.open, Timestamp(time));
    }
  }

  lemma EventKeeps(r: Run, key: Int32, value: Int32)
    requires Inv(r) && Allowed(r, Event(key, value))
    ensures Inv(Apply(r, Event(key, value)))
  {
    CodesAreShort(key);
    CodesAreShort(value);
    var s := r.buffer.CheckSpace(10);
    if s.available {
      RecordExtends(s, Pack32(key), Pack32(value), r.history.open, Counter(key, value));
    }
  }

  lemma Event64Keeps(r: Run, key: Int64, value: Int64)
    requires Inv(r) && Allowed(r, Event64(key, value))
    ensures Inv(Apply(r, Event64(key, value)))
  {
    LongCodesAreShort(key);
    LongCodesAreShort(value);
    var s := r.buffer.CheckSpace(20);
    if s.available {
      RecordExtends(s, Pack64(key), Pack64(value), r.history.open, Counter64(key, value));
    }
  }

  lemma StreamGrows(f: Format, h: History, committed: seq<Byte>)
    requires h.sent + committed == f.Stream(h.frames)
    ensures h.sent + (committed + f.FrameBytes(h.open)) == f.Stream(CloseFrame(h).frames)
  {
    StreamAppend(f, h.frames, h.open);
    Associate(h.sent, committed, f.FrameBytes(h.open));
  }

  /** `commit` in general: the history gains the open frame. */
  lemma CommitExtendsStream(r: Run, s: State, time: nat)
    requires Inv(r) && !r.buffer.done && s == r.buffer.(done := s.done)
    ensures var t := Closed(s, time);
            && Region(t) && Filled(t) == Filled(s) && t.commitPos == t.writePos
            && r.history.sent + Committed(t) == FormatOf(s).Stream(CloseFrame(r.history).frames)
            && Lengths(FormatOf(s), CloseFrame(r.history).frames)
  {
    var h, f := r.history, FormatOf(s);
    CommitCloses(s, h.open, time);
    StreamGrows(f, h, Committed(s));
    LengthsAppend(f, h.frames, h.open);
  }

  lemma CheckKeeps(r: Run, now: nat)
    requires Inv(r) && Allowed(r, Check(now))
    ensures Inv(Apply(r, Check(now)))
  {
    if r.buffer.CommitDue(now) {
      CommitExtendsStream(r, r.buffer, now);
      FrameOpens(Closed(r.buffer, now));
    }
  }

  lemma SetDoneKeeps(r: Run)
    requires Inv(r) && Allowed(r, SetDone)
    ensures Inv(Apply(r, SetDone))
  {
    CommitExtendsStream(r, r.buffer.(done := true), 0);
  }

  lemma OutgoingIsCommitted(s: State)
    requires s.Placed()
    ensures s.Outgoing() == Committed(s)
  {
    var n := if s.commitPos < s.readPos then s.size - s.readPos else s.commitPos - s.readPos;
    forall i | 0 <= i < |Committed(s)|
      ensures s.Outgoing()[i] == Committed(s)[i]
    {
      assert Committed(s)[i] == s.bytes[Masked(s.readPos + i, s.size)];
      if i < n {
        assert s.bytes[s.readPos..s.readPos + n][i] == s.bytes[s.readPos + i];
      } else {
        assert s.Outgoing()[i] == s.bytes[..s.commitPos][i - n];
      }
    }
  }

  lemma DrainEmpties(s: State)
    requires Region(s)
    ensures var t := s.Drain();
            && Region(t) && Filled(t) <= Filled(s) && FormatOf(t) == FormatOf(s) && t.done == s.done
            && Committed(t) == [] && OpenPart(t) == OpenPart(s)
            && (t.commitPos == t.writePos <==> s.commitPos == s.writePos)
  {
  }

  lemma WriteKeeps(r: Run)
    requires Inv(r)
    ensures Inv(Apply(r, Write))
    ensures Apply(r, Write).history.sent == FormatOf(r.buffer).Stream(r.history.frames)
  {
    hide *;
    InvIs(r);
    WriteIs(r);
    InvIs(Apply(r, Write));
    OutgoingIsCommitted(r.buffer);
    DrainEmpties(r.buffer);
    var sent := r.history.sent + Committed(r.buffer);
    assert sent + [] == sent;
  }

  lemma WriteIs(r: Run)
    requires Region(r.buffer)
    ensures r.buffer.Placed()
    ensures var h := r.history;
            Apply(r, Write) == Run(r.buffer.Drain(), r.ticking, h.(sent := h.sent + r.buffer.Outgoing()))
    ensures r.buffer.Drain().size == r.buffer.size
  {
    hide State.Outgoing;
  }

  lemma InvIs(r: Run)
    ensures Inv(r) <==>
      var s, h, f := r.buffer, r.history, FormatOf(r.buffer);
      && Region(s)
      && Filled(s) <= s.size - (if r.ticking then 200 else 185)
      && h.sent + Committed(s) == f.Stream(h.frames)
      && Lengths(f, h.frames)
      && (s.done ==> !r.ticking)
      && if s.done then s.commitPos == s.writePos && h.open == []
         else OpenFrame(f, OpenPart(s), h.open)
  {
    hide Committed, OpenPart, OpenFrame, Lengths, Format.Stream, Filled, FormatOf;
  }

  lemma ApplyKeepsInv(r: Run, c: Call)
    requires Inv(r) && Allowed(r, c)
    ensures Inv(Apply(r, c))
  {
    match c
    case Header(time) => HeaderKeeps(r, time);
    case Event(key, value) => EventKeeps(r, key, value);
    case Event64(key, value) => Event64Keeps(r, key, value);
    case Check(now) => CheckKeeps(r, now);
    case SetDone => SetDoneKeeps(r);
    case Write => WriteKeeps(r);
  }

  lemma InitInv(size: nat, localCapture: bool, liveRate: nat, buftype: Int32, core: Int32, bytes: seq<Byte>)
    requires 256 <= size <= MAX_SIZE && |bytes| == size
    ensures Inv(Run(Init(size, localCapture, liveRate, buftype, core, bytes), false, History([], [], [])))
  {
    var s := State(size, localCapture, liveRate, buftype, core, 0, 0, 0, true, false, liveRate, bytes);
    FrameOpens(s);
    assert Committed(s) == [];
  }

  ghost predicate Executes(r: Run, calls: seq<Call>, last: Run)
    decreases |calls|
  {
    Inv(r) &&
    if calls == [] then r == last
    else Allowed(r, calls[0]) && Executes(Apply(r, calls[0]), calls[1..], last)
  }

  /** In every run, the ring never comes closer than 185 bytes to being full, so no unread byte is
      overwritten and empty is never mistaken for full; and what has been sent, with what is still
      committed in the ring, reads back as just the committed frames with just the words of the records
      that were accepted, in order. */
  lemma {:induction false} RunsNeverOverrunAndAreWellFramed(r: Run, calls: seq<Call>, last: Run)
    requires Executes(r, calls, last)
    ensures last.buffer.Placed() && Filled(last.buffer) <= last.buffer.size - 185
    ensures var f, h := FormatOf(last.buffer), last.history;
            && ReadStream(f.localCapture, h.sent + Committed(last.buffer)) == Some(ExpectedAll(f, h.frames))
            && (!last.buffer.CommitReady() ==> ReadStream(f.localCapture, h.sent) == Some(ExpectedAll(f, h.frames)))
    decreases |calls|
  {
    if calls == [] {
      ReadStreamBack(FormatOf(last.buffer), last.history.frames);
      if !last.buffer.CommitReady() {
        assert last.history.sent + Committed(last.buffer) == last.history.sent;
      }
    } else {
      ApplyKeepsInv(r, calls[0]);
      RunsNeverOverrunAndAreWellFramed(Apply(r, calls[0]), calls[1..], last);
    }
  }
}
