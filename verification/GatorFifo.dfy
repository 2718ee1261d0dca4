/** The collector FIFO of the gator daemon (arm/gator-daemon/Fifo.cpp).

    One writer and one reader share a byte area of `threshold + single` bytes. The write cursor wraps
    to zero when it reaches the threshold, and the end of the data left behind is remembered as the
    ragged end. `State` is the value of all the fields; its functions are the calls of the C++ class,
    each up to its wait. The class `Fifo` below performs the same calls in place. */
module GatorFifo {
  import opened Basics

  datatype State = State(
    single: nat,       // mSingleBufferSize: the most one write may add
    threshold: nat,    // mWrapThreshold
    write: nat,
    read: nat,
    readCommit: nat,
    raggedEnd: nat,
    end: bool,
    bytes: seq<Byte>)
  {
    function NumBytesFilled(): int {
      write - read + raggedEnd
    }

    predicate IsEmpty() {
      read == write && raggedEnd == 0
    }

    predicate WillFill(additional: int) {
      if write > read then
        NumBytesFilled() + additional >= threshold
      else
        NumBytesFilled() + additional >= threshold - single
    }

    predicate IsFull() {
      WillFill(0)
    }

    /** `write` up to its wait loop: publish what the caller has put at the write cursor. */
    function Publish(length: int): State {
      var n := if length <= 0 then 0 else length;
      var w := write + n;
      var s := this.(end := end || length <= 0);
      if w >= threshold then s.(raggedEnd := w, write := 0) else s.(write := w)
    }

    /** `read`: None stands for the null pointer; otherwise the span from `read` to `readCommit` of
        the new state is handed out. */
    function Read(): Option<State> {
      if IsEmpty() && !end then None
      else Some(this.(readCommit := if raggedEnd != 0 then raggedEnd else write))
    }

    function Release(): State {
      if readCommit >= threshold then this.(raggedEnd := 0, read := 0, readCommit := 0)
      else this.(read := readCommit)
    }

    /** The collector stores `data` where the last `write` told it to. */
    function Fill(data: seq<Byte>): State
      requires write + |data| <= |bytes|
    {
      this.(bytes := Overwritten(bytes, write, data))
    }

    ghost predicate Valid() {
      && 0 < single < threshold
      && |bytes| == threshold + single
      && write < threshold
      && read <= readCommit
      && read < threshold
      && if raggedEnd == 0 then
           readCommit <= write
         else
           && threshold <= raggedEnd < threshold + single
           && readCommit <= raggedEnd
           && (readCommit < threshold || readCommit == raggedEnd)
           && (write == 0 || write < read)
    }

    /** Everything published and not yet released, oldest byte first. */
    ghost function Unread(): seq<Byte>
      requires Valid()
    {
      if raggedEnd == 0 then bytes[read..write] else bytes[read..raggedEnd] + bytes[..write]
    }

    /** What the reader was handed and has not released. */
    ghost function Held(): seq<Byte>
      requires Valid()
    {
      bytes[read..readCommit]
    }

    /** How many further calls of `read` it takes to be handed all that is published, assuming
        nobody writes and everything held is released in between. */
    ghost function Segments(): nat
      requires Valid()
    {
      if raggedEnd == 0 then (if readCommit < write then 1 else 0)
      else (if readCommit < raggedEnd then 1 else 0) + (if 0 < write then 1 else 0)
    }

    /** True of a position whose byte is unread or still held. */
    ghost predicate Occupied(i: nat) {
      if raggedEnd == 0 then read <= i < write else read <= i < raggedEnd || i < write
    }
  }

  function Overwritten(bytes: seq<Byte>, at: nat, data: seq<Byte>): (r: seq<Byte>)
    requires at + |data| <= |bytes|
    ensures |r| == |bytes|
  {
    bytes[..at] + data + bytes[at + |data|..]
  }

  function Init(single: nat, threshold: nat, bytes: seq<Byte>): State {
    State(single, threshold, 0, 0, 0, 0, false, bytes)
  }

  // ----- one call at a time

  /** While the FIFO is not full, the `single` bytes at the write cursor exist and hold nothing that is
      unread or held. */
  lemma FreeRegion(s: State)
    requires s.Valid() && !s.IsFull()
    ensures s.write + s.single <= |s.bytes|
    ensures forall i: nat | s.write <= i < s.write + s.single :: !s.Occupied(i)
  {
  }

  lemma FillKeeps(s: State, data: seq<Byte>)
    requires s.Valid() && !s.IsFull() && |data| <= s.single
    ensures s.write + |data| <= |s.bytes|
    ensures var t := s.Fill(data);
            && t.Valid() && !t.IsFull()
            && t.Unread() == s.Unread() && t.Held() == s.Held() && t.Segments() == s.Segments()
            && t.bytes[t.write..t.write + |data|] == data
  {
    FreeRegion(s);
    hide Overwritten;
    FillSpares(s.bytes, s.write, data, 0, s.write);
    FillKeepsValid(s, data);
    if s.raggedEnd == 0 {
      FillSpares(s.bytes, s.write, data, s.read, s.write);
      FillSpares(s.bytes, s.write, data, s.read, s.readCommit);
    } else {
      FillSpares(s.bytes, s.write, data, s.read, s.raggedEnd);
      FillSpares(s.bytes, s.write, data, s.read, s.readCommit);
    }
    hide State.Valid;
  }

  lemma FillKeepsValid(s: State, data: seq<Byte>)
    requires s.Valid() && s.write + |data| <= |s.bytes|
    ensures s.Fill(data).Valid()
  {
    hide Overwritten;
  }

  /** Overwriting a stretch does not touch a stretch that lies before or behind it. */
  lemma FillSpares(bytes: seq<Byte>, at: nat, data: seq<Byte>, a: nat, b: nat)
    requires at + |data| <= |bytes| && a <= b <= |bytes| && (b <= at || at + |data| <= a)
    ensures var r := Overwritten(bytes, at, data);
            r[a..b] == bytes[a..b] && r[at..at + |data|] == data
  {
  }

  function Count(length: int): nat {
    if length <= 0 then 0 else length
  }

  /** `write` keeps the state well formed, leaves what the reader holds alone and adds at most one
      segment, none if the length is not positive; only such a length marks the end. */
  lemma PublishKeeps(s: State, length: int)
    requires s.Valid() && !s.IsFull() && length <= s.single
    ensures var t := s.Publish(length);
            && t.Valid()
            && t.Segments() <= s.Segments() + (if length <= 0 then 0 else 1)
            && t.Held() == s.Held() && t.read == s.read && t.readCommit == s.readCommit
            && (t.end <==> s.end || length <= 0)
            && (length <= 0 ==> t.IsFull() == s.IsFull() && t.write == s.write && t.raggedEnd == s.raggedEnd)
  {
  }

  lemma PublishIs(s: State, length: int)
    ensures var w, ended := s.write + Count(length), s.end || length <= 0;
            s.Publish(length) == if w >= s.threshold then s.(end := ended, raggedEnd := w, write := 0)
                                 else s.(end := ended, write := w)
    ensures Count(length) == if length <= 0 then 0 else length
  {
  }

  /** `write` appends exactly the bytes at the write cursor. */
  lemma PublishAppends(s: State, length: int)
    requires s.Valid() && !s.IsFull() && length <= s.single
    requires s.Publish(length).Valid()
    ensures s.write + Count(length) <= |s.bytes|
    ensures s.Publish(length).Unread() == s.Unread() + s.bytes[s.write..s.write + Count(length)]
  {
    hide *;
    var n, t := Count(length), s.Publish(length);
    FreeRegion(s);
    PublishIs(s, length);
    Bounds(s);
    UnreadIs(s);
    UnreadIs(t);
    if s.raggedEnd == 0 {
      PublishAppendsUnwrapped(s, n);
    } else {
      NoWrapTwice(s, length);
      PublishAppendsWrapped(s, n);
    }
  }

  lemma Bounds(s: State)
    requires s.Valid()
    ensures |s.bytes| == s.threshold + s.single && s.read <= s.threshold && 0 < s.threshold
    ensures s.write <= |s.bytes| && s.read <= |s.bytes| && s.raggedEnd <= |s.bytes|
    ensures if s.raggedEnd == 0 then s.read <= s.write else s.read <= s.raggedEnd
  {
  }

  lemma UnreadIs(s: State)
    requires s.Valid()
    ensures s.read <= |s.bytes| && s.write <= |s.bytes| && s.raggedEnd <= |s.bytes|
    ensures s.raggedEnd == 0 ==> s.read <= s.write && s.Unread() == s.bytes[s.read..s.write]
    ensures s.raggedEnd != 0 ==>
      s.read <= s.raggedEnd && s.Unread() == s.bytes[s.read..s.raggedEnd] + s.bytes[..s.write]
  {
  }

  /** A FIFO that wraps has its write cursor behind the reader. */
  lemma NoWrapTwice(s: State, length: int)
    requires s.Valid() && !s.IsFull() && s.raggedEnd != 0 && length <= s.single
    ensures s.write + Count(length) < s.threshold
  {
  }

  lemma PublishAppendsUnwrapped(s: State, n: nat)
    requires s.Valid() && s.raggedEnd == 0 && s.write + n <= |s.bytes|
    ensures s.bytes[s.read..s.write + n] + s.bytes[..0] == s.Unread() + s.bytes[s.write..s.write + n]
    ensures s.bytes[s.read..s.write + n] == s.Unread() + s.bytes[s.write..s.write + n]
  {
    SplitSlice(s.bytes, s.read, s.write, s.write + n);
  }

  lemma PublishAppendsWrapped(s: State, n: nat)
    requires s.Valid() && s.raggedEnd != 0 && s.write + n <= |s.bytes|
    ensures s.bytes[s.read..s.raggedEnd] + s.bytes[..s.write + n]
         == s.Unread() + s.bytes[s.write..s.write + n]
  {
    SplitPrefix(s.bytes, s.write, s.write + n);
    Associate(s.bytes[s.read..s.raggedEnd], s.bytes[..s.write], s.bytes[s.write..s.write + n]);
  }

  /** `read` returns null exactly when nothing is published and the end is not marked. Otherwise it
      hands out a prefix of the unread bytes, which is empty only when nothing is unread. */
  lemma ReadIs(s: State)
    ensures s.Read() == if s.read == s.write && s.raggedEnd == 0 && !s.end then None
                        else Some(s.(readCommit := if s.raggedEnd != 0 then s.raggedEnd else s.write))
  {
  }

  lemma HeldIs(s: State)
    requires s.Valid()
    ensures s.read <= s.readCommit <= |s.bytes| && s.Held() == s.bytes[s.read..s.readCommit]
  {
  }

  lemma ReadHandsOutPrefix(s: State)
    requires s.Valid() && s.readCommit == s.read
    ensures s.Read() == None <==> s.Unread() == [] && !s.end
    ensures s.Segments() == 0 <==> s.Unread() == []
    ensures s.Read().Some? ==>
      var t := s.Read().value;
      && t == s.(readCommit := t.readCommit) && t.Valid() && t.Unread() == s.Unread()
      && t.read <= t.readCommit && |t.Held()| == t.readCommit - t.read
      && t.Held() <= t.Unread()
      && (t.Held() == [] <==> s.Unread() == [])
      && t.Segments() == (if s.Segments() == 0 then 0 else s.Segments() - 1)
  {
    if s.raggedEnd == 0 {
      assert s.Unread() == [] <==> s.read == s.write;
    } else {
      assert s.Unread()[0] == s.bytes[s.read];
    }
  }

  /** `release` drops exactly what was held. */
  lemma ReleaseDropsHeld(s: State)
    requires s.Valid()
    ensures var t := s.Release();
            && t.Valid()
            && t.readCommit == t.read
            && s.Held() + t.Unread() == s.Unread()
            && t.Segments() == s.Segments()
            && (!s.IsFull() ==> !t.IsFull())
  {
    var t := s.Release();
    assert t.Valid();
    if s.raggedEnd == 0 {
      SplitSlice(s.bytes, s.read, s.readCommit, s.write);
    } else if s.readCommit < s.threshold {
      SplitSlice(s.bytes, s.read, s.readCommit, s.raggedEnd);
      Associate(s.bytes[s.read..s.readCommit], s.bytes[s.readCommit..s.raggedEnd], s.bytes[..s.write]);
    } else {
      assert t.bytes[0..s.write] == s.bytes[..s.write];
    }
  }

  // ----- whole runs: the FIFO refines an unbounded byte queue

  /** One call, by whichever thread makes it. A `Write` carries the bytes the collector stored first;
      the empty sequence stands for a length that is not positive. */
  datatype Call = Write(data: seq<Byte>) | Read | Release

  /** `written` and `handedOut` are histories: all bytes published, and all bytes of spans released. */
  datatype Run = Run(fifo: State, written: seq<Byte>, handedOut: seq<Byte>)

  /** The caller's side of the contract: the writer is let out of its wait before it writes again and
      writes at most `single` bytes; the reader releases one span before it reads the next. */
  predicate Allowed(r: Run, c: Call) {
    match c
    case Write(data) => !r.fifo.IsFull() && |data| <= r.fifo.single
    case Read => r.fifo.readCommit == r.fifo.read
    case Release => true
  }

  ghost predicate Sound(r: Run) {
    r.fifo.Valid() && r.written == r.handedOut + r.fifo.Unread()
  }

  ghost function Apply(r: Run, c: Call): Run
    requires Sound(r) && Allowed(r, c)
  {
    match c
    case Write(data) =>
      FreeRegion(r.fifo);
      Run(r.fifo.Fill(data).Publish(|data|), r.written + data, r.handedOut)
    case Read => if r.fifo.Read().None? then r else r.(fifo := r.fifo.Read().value)
    case Release => Run(r.fifo.Release(), r.written, r.handedOut + r.fifo.Held())
  }

  lemma FillThenPublish(s: State, data: seq<Byte>) returns (t: State)
    requires s.Valid() && !s.IsFull() && |data| <= s.single
    ensures s.write + |data| <= |s.bytes| && t == s.Fill(data).Publish(|data|)
    ensures t.Valid() && t.Unread() == s.Unread() + data
  {
    FillKeeps(s, data);
    var f := s.Fill(data);
    PublishKeeps(f, |data|);
    PublishAppends(f, |data|);
    t := f.Publish(|data|);
  }

  lemma WriteKeepsSound(r: Run, data: seq<Byte>)
    requires Sound(r) && Allowed(r, Write(data))
    ensures Sound(Apply(r, Write(data)))
  {
    var f := FillThenPublish(r.fifo, data);
    assert r.handedOut + (r.fifo.Unread() + data) == r.handedOut + r.fifo.Unread() + data;
  }

  lemma ApplyKeepsSound(r: Run, c: Call)
    requires Sound(r) && Allowed(r, c)
    ensures Sound(Apply(r, c))
  {
    match c
    case Write(data) =>
      WriteKeepsSound(r, data);
    case Read =>
      ReadHandsOutPrefix(r.fifo);
    case Release =>
      ReleaseDropsHeld(r.fifo);
      assert r.fifo.Held() + r.fifo.Release().Unread() == r.fifo.Unread();
  }

  /** `calls` is an interleaving that respects the callers' contract from `r` and ends in `last`. */
  ghost predicate Executes(r: Run, calls: seq<Call>, last: Run)
    decreases |calls|
  {
    Sound(r) &&
    if calls == [] then r == last
    else Allowed(r, calls[0]) && Executes(Apply(r, calls[0]), calls[1..], last)
  }

  /** After any interleaving of writes, reads and releases, what the reader has been handed is a
      prefix of what was written and the rest is still in the FIFO; and if the writer may write, the
      region it fills holds none of it. */
  lemma {:induction false} FifoRefinesQueue(r: Run, calls: seq<Call>, last: Run)
    requires Executes(r, calls, last)
    ensures Sound(last)
    ensures last.handedOut + last.fifo.Held() <= last.written
    ensures !last.fifo.IsFull() ==>
      forall i: nat | last.fifo.write <= i < last.fifo.write + last.fifo.single :: !last.fifo.Occupied(i)
    decreases |calls|
  {
    if calls == [] {
      ReleaseDropsHeld(last.fifo);
      hide State.Valid, State.Unread, State.Held, State.Release, State.IsFull;
      Associate(last.handedOut, last.fifo.Held(), last.fifo.Release().Unread());
      if !last.fifo.IsFull() {
        FreeRegion(last.fifo);
      }
    } else {
      hide State.Valid, State.Unread, State.Held, State.Release, State.IsFull;
      ApplyKeepsSound(r, calls[0]);
      FifoRefinesQueue(Apply(r, calls[0]), calls[1..], last);
    }
  }

  /** The run from a new FIFO starts sound. */
  lemma InitIsSound(single: nat, threshold: nat, bytes: seq<Byte>)
    requires 0 < single < threshold && |bytes| == threshold + single
    ensures Sound(Run(Init(single, threshold, bytes), [], []))
    ensures !Init(single, threshold, bytes).IsFull()
  {
  }

  // ----- progress

  function ReadRelease(s: State): State {
    match s.Read()
    case None => s
    case Some(t) => t.Release()
  }

  /** A writer that finds the FIFO full is let go after at most two releases: the one of the span
      the reader may be holding, and the one of the rest up to the ragged end. If the reader holds
      nothing, one is enough. */
  lemma TwoReleasesFreeTheWriter(s: State)
    requires s.Valid() && s.IsFull()
    ensures !ReadRelease(s.Release()).IsFull()
    ensures s.readCommit == s.read ==> !ReadRelease(s).IsFull()
    ensures s.Segments() > 0 || s.read < s.readCommit
  {
  }

  /** What `willFill` means, in bytes: with so many more than are unread or held, the FIFO holds its whole
      threshold, or all but a single buffer of it once the writer is not ahead of the reader. */
  lemma WillFillExactly(s: State, additional: int)
    requires s.Valid()
    ensures s.WillFill(additional)
        <==> |s.Unread()| + additional >= if s.write > s.read then s.threshold else s.threshold - s.single
    ensures s.IsFull() <==> |s.Unread()| >= if s.write > s.read then s.threshold else s.threshold - s.single
  {
  }

  /** One-shot mode: before the reader has consumed anything, a length that `willFill` does not
      object to is published without filling the FIFO, so `write` does not wait. */
  lemma NoWaitUnlessWillFill(s: State, length: int)
    requires s.Valid() && s.read == 0 && s.raggedEnd == 0 && -1 <= length <= s.single
    requires !s.WillFill(length)
    ensures !s.Publish(length).IsFull()
    ensures s.Publish(length).read == 0 && s.Publish(length).raggedEnd == 0
  {
  }

  // ----- the class

  method CopyInto(a: array<Byte>, at: nat, data: seq<Byte>)
    requires at + |data| <= a.Length
    modifies a
    ensures a[..] == Overwritten(old(a[..]), at, data)
  {
    for i := 0 to |data|
      invariant a[..at] == old(a[..at])
      invariant a[at..at + i] == data[..i]
      invariant a[at + i..] == old(a[at + i..])
    {
      a[at + i] := data[i];
    }
    assert a[..] == a[..at] + a[at..at + |data|] + a[at + |data|..];
  }

  class Fifo {
    const single: nat
    const threshold: nat
    var write: nat
    var read: nat
    var readCommit: nat
    var raggedEnd: nat
    var end: bool
    const buffer: array<Byte>
    const waitForSpaceSem: Semaphore
    const readerSem: Semaphore

    ghost function Value(): State
      reads this, buffer
    {
      State(single, threshold, write, read, readCommit, raggedEnd, end, buffer[..])
    }

    ghost predicate Valid()
      reads this, buffer
    {
      Value().Valid() && waitForSpaceSem != readerSem
    }

    constructor (single: nat, threshold: nat, readerSem: Semaphore)
      requires 0 < single < threshold
      ensures Valid() && fresh(buffer) && fresh(waitForSpaceSem)
      ensures Value() == Init(single, threshold, buffer[..])
      ensures Value().Unread() == [] && !Value().IsFull()
      ensures this.readerSem == readerSem && waitForSpaceSem.count == 0
    {
      this.single, this.threshold := single, threshold;
      write, read, readCommit, raggedEnd, end := 0, 0, 0, 0, false;
      buffer := new Byte[threshold + single](_ => 0);
      waitForSpaceSem := new Semaphore(0);
      this.readerSem := readerSem;
    }

    method WillFill(additional: int) returns (full: bool)
      ensures full == Value().WillFill(additional)
    {
      var filled := write - read + raggedEnd;
      if write > read {
        if filled + additional < threshold {
          return false;
        }
      } else {
        if filled + additional < threshold - single {
          return false;
        }
      }
      return true;
    }

    method IsEmpty() returns (empty: bool)
      requires Valid()
      ensures empty <==> Value().Unread() == []
    {
      empty := read == write && raggedEnd == 0;
      assert raggedEnd != 0 ==> Value().Unread()[0] == buffer[read];
    }

    /** The collector's store through the pointer it was given. */
    method Fill(data: seq<Byte>)
      requires Valid() && !Value().IsFull() && |data| <= single
      modifies buffer
      ensures Valid() && Value() == old(Value()).Fill(data)
      ensures Value().Unread() == old(Value().Unread()) && Value().Held() == old(Value().Held())
    {
      ghost var before := Value();
      FreeRegion(before);
      CopyInto(buffer, write, data);
      FillKeeps(before, data);
    }

    /** `write` up to its wait: publish, wrap, notify the reader. `PublishAppends` says what that does to
        the unread bytes. */
    method Write(length: int)
      requires Valid() && !Value().IsFull() && length <= single
      modifies this, readerSem
      ensures Valid() && Value() == old(Value()).Publish(length)
      ensures readerSem.count == old(readerSem.count) + 1
    {
      hide *;
      ghost var before := Value();
      Fields();
      PublishKeeps(before, length);
      PublishIs(before, length);
      var n := length;
      if length <= 0 {
        n := 0;
        end := true;
      }
      write := write + n;
      if write >= threshold {
        raggedEnd := write;
        write := 0;
      }
      readerSem.Post();
      Fields();
    }

    lemma Fields()
      ensures Value() == State(single, threshold, write, read, readCommit, raggedEnd, end, buffer[..])
      ensures Valid() <==> Value().Valid() && waitForSpaceSem != readerSem
    {
      hide State.Valid;
    }

    /** One evaluation of the wait loop's guard: the position the next store goes to, if there is room
        for a whole write. */
    method TryFinishWrite() returns (at: Option<nat>)
      requires Valid()
      ensures at.None? <==> Value().IsFull()
      ensures at.Some? ==>
        && at.value == write && at.value + single <= buffer.Length
        && forall i: nat | at.value <= i < at.value + single :: !Value().Occupied(i)
    {
      var full := WillFill(0);
      if full {
        at := None;
      } else {
        FreeRegion(Value());
        at := Some(write);
      }
    }

    /** Hands out the position and length of a span. The retry loop of the original is never taken
        here, because the length is never negative. */
    method Read() returns (span: Option<(nat, nat)>)
      requires Valid() && readCommit == read
      modifies `readCommit
      ensures Valid()
      ensures span.None? <==> old(Value().Unread()) == [] && !end
      ensures span.None? ==> Value() == old(Value())
      ensures span.Some? ==>
        && old(Value()).Read() == Some(Value())
        && span.value.0 == read && span.value.0 + span.value.1 == readCommit
        && buffer[span.value.0..span.value.0 + span.value.1] == Value().Held() <= old(Value().Unread())
    {
      hide *;
      Fields();
      ReadHandsOutPrefix(Value());
      ReadIs(Value());
      if read == write && raggedEnd == 0 && !end {
        return None;
      }
      readCommit := if raggedEnd != 0 then raggedEnd else write;
      span := Some((read, readCommit - read));
      Fields();
      HeldIs(Value());
    }

    method Release()
      requires Valid()
      modifies this, waitForSpaceSem
      ensures Valid() && Value() == old(Value()).Release()
      ensures old(Value().Unread()) == old(Value().Held()) + Value().Unread()
      ensures waitForSpaceSem.count == old(waitForSpaceSem.count) + 1
    {
      ReleaseDropsHeld(Value());
      read := readCommit;
      if read >= threshold {
        raggedEnd, read, readCommit := 0, 0, 0;
      }
      waitForSpaceSem.Post();
    }
  }
}
