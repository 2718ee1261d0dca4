/** The block-counter buffer of the gator daemon (arm/gator-daemon/Buffer.cpp): a ring into which the
    counters thread packs records frame by frame and from which the sender thread drains whole frames.

    `State` is the value of the fields and its functions are the C++ methods. Session settings the
    methods read (local capture, live rate) are fields too. Times are unbounded; `size` is a power of
    two, so `& mask` is `Masked`. */
module GatorBuffer {
  import opened Basics
  import opened Leb128
  import opened Ring

  const RESPONSE_APC_DATA: Int32 := 3
  const MAXSIZE_PACK32 := 5
  const MAXSIZE_PACK64 := 10
  const MAX_SIZE := 0x2000_0000  // the largest power of two three times which an int holds

  /** The four bytes of an int32_t length, least significant first. */
  function LengthBytes(n: int): seq<Byte> {
    [n % 0x100, n / 0x100 % 0x100, n / 0x1_0000 % 0x100, n / 0x100_0000 % 0x100]
  }

  datatype State = State(
    size: nat,
    localCapture: bool,
    liveRate: nat,
    buftype: Int32,
    core: Int32,
    readPos: nat,
    writePos: nat,
    commitPos: nat,
    available: bool,
    done: bool,
    commitTime: nat,
    bytes: seq<Byte>)
  {
    predicate Placed() {
      |bytes| == size && 256 <= size <= MAX_SIZE && readPos < size && commitPos < size && writePos < size
    }

    function TypeLength(): nat {
      if localCapture then 0 else 1
    }

    function BytesAvailable(): int
      requires Placed()
    {
      size - Gap(readPos, writePos, size) - (if available then 200 else 2000)
    }

    function CheckSpace(n: nat): State
      requires Placed()
    {
      this.(available := BytesAvailable() >= n)
    }

    /** Store a code at the write position. `frame` calls this with a write position it has moved past
        the end without masking, hence the slack. */
    function Pack(code: seq<Byte>): State
      requires |bytes| == size && writePos < size + 4 && |code| <= 10 && 256 <= size
    {
      this.(bytes := Put(bytes, Masked(writePos, size), code),
            writePos := Masked(writePos + |code|, size))
    }

    /** The first half of `frame`: the type byte, and room for the length. */
    function Reserve(): State
      requires Placed()
    {
      CodesAreShort(RESPONSE_APC_DATA);
      var a := if localCapture then this else Pack(Pack32(RESPONSE_APC_DATA));
      a.(writePos := a.writePos + 4)
    }

    function Frame(): State
      requires Placed()
    {
      CodesAreShort(buftype);
      CodesAreShort(core);
      Reserve().Pack(Pack32(buftype)).Pack(Pack32(core))
    }

    /** The payload length `commit` stores: all that was written since the last commit, less the type
        byte and the length field. */
    function CommitLength(): int
      requires Placed()
    {
      Gap(commitPos, writePos, size) - TypeLength() - 4
    }

    function Commit(time: nat): State
      requires Placed()
    {
      var s := this.(
        bytes := Put(bytes, Masked(commitPos + TypeLength(), size), LengthBytes(CommitLength())),
        commitPos := writePos,
        commitTime := if liveRate > 0 then Advance(commitTime, liveRate, time) else commitTime);
      if done then s else s.Frame()
    }

    predicate CommitDue(time: nat)
      requires Placed()
    {
      Gap(commitPos, writePos, size) >= size * 3 / 4 || (liveRate > 0 && time >= commitTime)
    }

    function Check(time: nat): State
      requires Placed()
    {
      if CommitDue(time) then Commit(time) else this
    }

    function EventHeader(time: Int64): State
      requires Placed()
    {
      CodesAreShort(0);
      LongCodesAreShort(time);
      var s := CheckSpace(MAXSIZE_PACK32 + MAXSIZE_PACK64);
      if s.available then s.Pack(Pack32(0)).Pack(Pack64(time)) else s
    }

    function Event(key: Int32, value: Int32): State
      requires Placed()
    {
      CodesAreShort(key);
      CodesAreShort(value);
      var s := CheckSpace(2 * MAXSIZE_PACK32);
      if s.available then s.Pack(Pack32(key)).Pack(Pack32(value)) else s
    }

    function Event64(key: Int64, value: Int64): State
      requires Placed()
    {
      LongCodesAreShort(key);
      LongCodesAreShort(value);
      var s := CheckSpace(2 * MAXSIZE_PACK64);
      if s.available then s.Pack(Pack64(key)).Pack(Pack64(value)) else s
    }

    function SetDone(): State
      requires Placed()
    {
      this.(done := true).Commit(0)
    }

    predicate IsDone() {
      done && readPos == commitPos && commitPos == writePos
    }

    predicate CommitReady() {
      commitPos != readPos
    }

    /** What `write` hands to the sender: one stretch, or two when it wraps. */
    function Outgoing(): seq<Byte>
      requires Placed()
    {
      if commitPos < readPos then bytes[readPos..] + bytes[..commitPos] else bytes[readPos..commitPos]
    }

    function Drain(): State {
      this.(readPos := commitPos)
    }
  }

  function Advance(commitTime: nat, rate: nat, time: nat): nat
    requires rate > 0
    decreases time - commitTime
  {
    if time > commitTime then Advance(commitTime + rate, rate, time) else commitTime
  }

  lemma CodesAreShort(x: Int32)
    ensures 1 <= |Pack32(x)| <= MAXSIZE_PACK32
  {
  }

  lemma LongCodesAreShort(x: Int64)
    ensures 1 <= |Pack64(x)| <= MAXSIZE_PACK64
  {
  }

  function Init(size: nat, localCapture: bool, liveRate: nat, buftype: Int32, core: Int32,
                bytes: seq<Byte>): State
    requires 256 <= size <= MAX_SIZE && |bytes| == size
  {
    State(size, localCapture, liveRate, buftype, core, 0, 0, 0, true, false, liveRate, bytes).Frame()
  }
}
