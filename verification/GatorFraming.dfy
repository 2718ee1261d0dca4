/** The stream format of the block-counter buffer, independently of the ring that produces it: what
    bytes a list of frames is, and a reader that takes such a stream apart again. */
module GatorFraming {
  import opened Basics
  import opened Leb128
  import opened GatorBuffer

  /** What the counters thread asks the buffer to record. */
  datatype Record =
    | Timestamp(time: Int64)
    | Counter(key: Int32, value: Int32)
    | Counter64(key64: Int64, value64: Int64)

  function Code(r: Record): seq<Byte> {
    match r
    case Timestamp(time) => Pack32(0) + Pack64(time)
    case Counter(key, value) => Pack32(key) + Pack32(value)
    case Counter64(key, value) => Pack64(key) + Pack64(value)
  }

  /** What a reader can learn of a record: two words, the bit patterns of key and value. */
  function Words(r: Record): (nat, nat) {
    match r
    case Timestamp(time) => (0, time % TWO64)
    case Counter(key, value) => (key % TWO32, value % TWO32)
    case Counter64(key, value) => (key % TWO64, value % TWO64)
  }

  function Codes(rs: seq<Record>): seq<Byte> {
    if rs == [] then [] else Code(rs[0]) + Codes(rs[1..])
  }

  function AllWords(rs: seq<Record>): seq<(nat, nat)> {
    if rs == [] then [] else [Words(rs[0])] + AllWords(rs[1..])
  }

  /** What every frame of a session has in common. */
  datatype Format = Format(localCapture: bool, buftype: Int32, core: Int32)
  {
    function TypeBytes(): seq<Byte> {
      if localCapture then [] else Pack32(RESPONSE_APC_DATA)
    }

    function Payload(rs: seq<Record>): seq<Byte> {
      Pack32(buftype) + Pack32(core) + Codes(rs)
    }

    function FrameBytes(rs: seq<Record>): seq<Byte> {
      TypeBytes() + LengthBytes(|Payload(rs)|) + Payload(rs)
    }

    function Stream(frames: seq<seq<Record>>): seq<Byte> {
      if frames == [] then [] else FrameBytes(frames[0]) + Stream(frames[1..])
    }
  }

  lemma {:induction false} CodesAppend(rs: seq<Record>, r: Record)
    ensures Codes(rs + [r]) == Codes(rs) + Code(r)
  {
    hide Code;
    if rs == [] {
      assert rs + [r] == [r];
    } else {
      CodesAppend(rs[1..], r);
      assert (rs + [r])[1..] == rs[1..] + [r];
      Associate(Code(rs[0]), Codes(rs[1..]), Code(r));
    }
  }

  lemma {:induction false} StreamAppend(f: Format, frames: seq<seq<Record>>, rs: seq<Record>)
    ensures f.Stream(frames + [rs]) == f.Stream(frames) + f.FrameBytes(rs)
  {
    hide Format.FrameBytes;
    if frames == [] {
      assert frames + [rs] == [rs];
    } else {
      StreamAppend(f, frames[1..], rs);
      assert (frames + [rs])[1..] == frames[1..] + [rs];
      Associate(f.FrameBytes(frames[0]), f.Stream(frames[1..]), f.FrameBytes(rs));
    }
  }

  // ----- the reader

  /** One packed integer as a 64-bit word, and what follows it. */
  function ReadCode(s: seq<Byte>): (r: Option<(nat, seq<Byte>)>)
    ensures r.Some? ==> |r.value.1| < |s|
  {
    match CodeLength(s)
    case None => None
    case Some(n) => Some((Decode(s[..n]) % TWO64, s[n..]))
  }

  function ReadPairs(s: seq<Byte>): Option<seq<(nat, nat)>>
    decreases |s|
  {
    if s == [] then Some([])
    else
      match ReadCode(s)
      case None => None
      case Some((key, s1)) =>
        match ReadCode(s1)
        case None => None
        case Some((value, s2)) =>
          match ReadPairs(s2)
          case None => None
          case Some(more) => Some([(key, value)] + more)
  }

  datatype Parsed = Parsed(buftype: nat, core: nat, pairs: seq<(nat, nat)>)

  function ReadPayload(s: seq<Byte>): Option<Parsed> {
    match ReadCode(s)
    case None => None
    case Some((buftype, s1)) =>
      match ReadCode(s1)
      case None => None
      case Some((core, s2)) =>
        match ReadPairs(s2)
        case None => None
        case Some(pairs) => Some(Parsed(buftype, core, pairs))
  }

  function LengthOf(b: seq<Byte>): nat
    requires |b| == 4
  {
    b[0] as int + 0x100 * b[1] as int + 0x1_0000 * b[2] as int + 0x100_0000 * b[3] as int
  }

  /** One frame behind its type byte, if there is to be one, and what follows it. */
  function ReadFrame(localCapture: bool, s: seq<Byte>): (r: Option<(Parsed, seq<Byte>)>)
    ensures r.Some? ==> |r.value.1| < |s|
  {
    var t := if localCapture then 0 else 1;
    if |s| < t + 4 || (!localCapture && s[0] != RESPONSE_APC_DATA) then None
    else
      var n := LengthOf(s[t..t + 4]);
      if |s| < t + 4 + n then None
      else
        match ReadPayload(s[t + 4..t + 4 + n])
        case None => None
        case Some(p) => Some((p, s[t + 4 + n..]))
  }

  function ReadStream(localCapture: bool, s: seq<Byte>): Option<seq<Parsed>>
    decreases |s|
  {
    if s == [] then Some([])
    else
      match ReadFrame(localCapture, s)
      case None => None
      case Some((p, rest)) =>
        match ReadStream(localCapture, rest)
        case None => None
        case Some(more) => Some([p] + more)
  }

  // ----- the reader undoes the format

  lemma ReadCode32(x: Int32, rest: seq<Byte>)
    ensures ReadCode(Pack32(x) + rest) == Some((x % TWO32, rest))
  {
    Pack32RoundTrip(x);
    PrefixFree(Pack32(x), rest);
    var y := x % TWO32;
    assert 0 <= y < TWO64 && y % TWO64 == y;
    hide Pack32, Decode, CodeLength, IsCode;
  }

  lemma ReadCode64(x: Int64, rest: seq<Byte>)
    ensures ReadCode(Pack64(x) + rest) == Some((x % TWO64, rest))
  {
    Pack64RoundTrip(x);
    PrefixFree(Pack64(x), rest);
    hide Pack64, Decode, CodeLength, IsCode;
  }

  lemma ReadTwoCodes(r: Record, rest: seq<Byte>)
    ensures Code(r) != []
    ensures exists s1 :: ReadCode(Code(r) + rest) == Some((Words(r).0, s1))
                      && ReadCode(s1) == Some((Words(r).1, rest))
  {
    match r
    case Timestamp(time) =>
      assert Code(r) + rest == Pack32(0) + (Pack64(time) + rest);
      ReadCode32(0, Pack64(time) + rest);
      ReadCode64(time, rest);
    case Counter(key, value) =>
      assert Code(r) + rest == Pack32(key) + (Pack32(value) + rest);
      ReadCode32(key, Pack32(value) + rest);
      ReadCode32(value, rest);
    case Counter64(key, value) =>
      assert Code(r) + rest == Pack64(key) + (Pack64(value) + rest);
      ReadCode64(key, Pack64(value) + rest);
      ReadCode64(value, rest);
  }

  lemma {:induction false} ReadPairsOfCodes(rs: seq<Record>)
    ensures ReadPairs(Codes(rs)) == Some(AllWords(rs))
  {
    if rs != [] {
      ReadTwoCodes(rs[0], Codes(rs[1..]));
      ReadPairsOfCodes(rs[1..]);
    }
  }

  function Expected(f: Format, rs: seq<Record>): Parsed {
    Parsed(f.buftype % TWO32, f.core % TWO32, AllWords(rs))
  }

  function ExpectedAll(f: Format, frames: seq<seq<Record>>): seq<Parsed> {
    if frames == [] then [] else [Expected(f, frames[0])] + ExpectedAll(f, frames[1..])
  }

  lemma ReadPayloadBack(f: Format, rs: seq<Record>)
    ensures ReadPayload(f.Payload(rs)) == Some(Expected(f, rs))
  {
    assert f.Payload(rs) == Pack32(f.buftype) + (Pack32(f.core) + Codes(rs));
    ReadCode32(f.buftype, Pack32(f.core) + Codes(rs));
    ReadCode32(f.core, Codes(rs));
    ReadPairsOfCodes(rs);
  }

  lemma LengthRoundTrip(n: nat)
    requires n < TWO32
    ensures LengthOf(LengthBytes(n)) == n
  {
    var q1, q2, q3 := n / 0x100, n / 0x1_0000, n / 0x100_0000;
    assert n == 0x100 * q1 + n % 0x100;
    assert q1 == 0x100 * q2 + q1 % 0x100;
    assert q2 == 0x100 * q3 + q2 % 0x100;
    assert q3 % 0x100 == q3;
  }

  lemma TypeByte()
    ensures Pack32(RESPONSE_APC_DATA) == [3]
  {
  }

  /** Cutting a frame out of a stream at the places its parts begin. */
  lemma CutFrame(t: seq<Byte>, l: seq<Byte>, p: seq<Byte>, rest: seq<Byte>)
    requires |l| == 4
    ensures var s := t + l + p + rest;
            && s[|t|..|t| + 4] == l
            && s[|t| + 4..|t| + 4 + |p|] == p
            && s[|t| + 4 + |p|..] == rest
            && (t != [] ==> s[0] == t[0])
  {
  }

  lemma ReadFrameBack(f: Format, rs: seq<Record>, rest: seq<Byte>)
    requires |f.Payload(rs)| < TWO32
    ensures f.FrameBytes(rs) != []
    ensures ReadFrame(f.localCapture, f.FrameBytes(rs) + rest) == Some((Expected(f, rs), rest))
  {
    var p := f.Payload(rs);
    CutFrame(f.TypeBytes(), LengthBytes(|p|), p, rest);
    LengthRoundTrip(|p|);
    ReadPayloadBack(f, rs);
    hide LengthBytes, LengthOf, Format.Payload, ReadPayload, Expected, Pack32;
    TypeByte();
  }

  ghost predicate Lengths(f: Format, frames: seq<seq<Record>>) {
    forall i | 0 <= i < |frames| :: |f.Payload(frames[i])| < TWO32
  }

  /** A stream of frames is read back as just those frames, with the words of just those records in
      order; in particular no two lists of frames with different words give the same stream. */
  lemma {:induction false} ReadStreamBack(f: Format, frames: seq<seq<Record>>)
    requires Lengths(f, frames)
    ensures ReadStream(f.localCapture, f.Stream(frames)) == Some(ExpectedAll(f, frames))
  {
    if frames != [] {
      ReadFrameBack(f, frames[0], f.Stream(frames[1..]));
      ReadStreamBack(f, frames[1..]);
    }
  }
}
