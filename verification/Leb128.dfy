/** The variable-length integers of the gator ring (Buffer::packInt and Buffer::packInt64): unsigned
    LEB128, section 7.6 of DWARF Debugging Information Format Version 4.

    An int32_t or int64_t is the mathematical integer it denotes. On such integers the arithmetic
    shift `x >> k` is `x / 2^k` rounded down, taking the low seven or eight bits is a remainder, and
    `(x & 0xffffff80) == 0` says `0 <= x < 0x80`; so a negative value always takes the last branch. */
module Leb128 {
  import opened Basics

  const TWO32: int := 0x1_0000_0000
  const TWO64: int := 0x1_0000_0000_0000_0000

  type Int32 = x: int | -0x8000_0000 <= x < 0x8000_0000
  type Int64 = x: int | -0x8000_0000_0000_0000 <= x < 0x8000_0000_0000_0000

  /** (x & 0x7f) stored in a char. */
  function Low7(x: int): Byte {
    x % 0x80
  }

  /** (x | 0x80) stored in a char. */
  function More(x: int): Byte {
    x % 0x80 + 0x80
  }

  function Pack32(x: Int32): seq<Byte> {
    if 0 <= x < 0x80 then
      [Low7(x)]
    else if 0 <= x < 0x4000 then
      [More(x), Low7(x / 0x80)]
    else if 0 <= x < 0x20_0000 then
      [More(x), More(x / 0x80), Low7(x / 0x4000)]
    else if 0 <= x < 0x1000_0000 then
      [More(x), More(x / 0x80), More(x / 0x4000), Low7(x / 0x20_0000)]
    else
      [More(x), More(x / 0x80), More(x / 0x4000), More(x / 0x20_0000), x / 0x1000_0000 % 0x10]
  }

  function Pack64(x: Int64): seq<Byte> {
    if 0 <= x < 0x80 then
      [Low7(x)]
    else if 0 <= x < 0x4000 then
      [More(x), Low7(x / 0x80)]
    else if 0 <= x < 0x20_0000 then
      [More(x), More(x / 0x80), Low7(x / 0x4000)]
    else if 0 <= x < 0x1000_0000 then
      [More(x), More(x / 0x80), More(x / 0x4000), Low7(x / 0x20_0000)]
    else if 0 <= x < 0x8_0000_0000 then
      [More(x), More(x / 0x80), More(x / 0x4000), More(x / 0x20_0000), Low7(x / 0x1000_0000)]
    else if 0 <= x < 0x400_0000_0000 then
      [More(x), More(x / 0x80), More(x / 0x4000), More(x / 0x20_0000), More(x / 0x1000_0000),
       Low7(x / 0x8_0000_0000)]
    else if 0 <= x < 0x2_0000_0000_0000 then
      [More(x), More(x / 0x80), More(x / 0x4000), More(x / 0x20_0000), More(x / 0x1000_0000),
       More(x / 0x8_0000_0000), Low7(x / 0x400_0000_0000)]
    else if 0 <= x < 0x100_0000_0000_0000 then
      [More(x), More(x / 0x80), More(x / 0x4000), More(x / 0x20_0000), More(x / 0x1000_0000),
       More(x / 0x8_0000_0000), More(x / 0x400_0000_0000), Low7(x / 0x2_0000_0000_0000)]
    else if 0 <= x < 0x8000_0000_0000_0000 then
      [More(x), More(x / 0x80), More(x / 0x4000), More(x / 0x20_0000), More(x / 0x1000_0000),
       More(x / 0x8_0000_0000), More(x / 0x400_0000_0000), More(x / 0x2_0000_0000_0000),
       Low7(x / 0x100_0000_0000_0000)]
    else
      [More(x), More(x / 0x80), More(x / 0x4000), More(x / 0x20_0000), More(x / 0x1000_0000),
       More(x / 0x8_0000_0000), More(x / 0x400_0000_0000), More(x / 0x2_0000_0000_0000),
       More(x / 0x100_0000_0000_0000), Low7(x / 0x8000_0000_0000_0000)]
  }

  // ----- decoding

  predicate Continues(b: Byte) {
    b >= 0x80
  }

  /** A code word: every byte but the last has its top bit set. */
  predicate IsCode(c: seq<Byte>) {
    && c != []
    && !Continues(c[|c| - 1])
    && forall i | 0 <= i < |c| - 1 :: Continues(c[i])
  }

  /** The number a code word stands for: seven bits a byte, least significant group first. */
  function Decode(c: seq<Byte>): nat {
    if c == [] then 0 else c[0] % 0x80 + 0x80 * Decode(c[1..])
  }

  /** The length of the code word a stream starts with; None if the stream ends inside it. */
  function CodeLength(stream: seq<Byte>): (r: Option<nat>)
    ensures r.Some? ==> r.value <= |stream| && IsCode(stream[..r.value])
  {
    if stream == [] then None
    else if !Continues(stream[0]) then Some(1)
    else
      match CodeLength(stream[1..])
      case None => None
      case Some(n) =>
        assert stream[..n + 1] == [stream[0]] + stream[1..][..n];
        Some(n + 1)
  }

  // ----- the codes are code words, short, and decode to what was packed

  /** No code word is a proper prefix of another: a stream that starts with a code word starts with
      only one, and `CodeLength` finds it. */
  lemma {:induction false} PrefixFree(c: seq<Byte>, rest: seq<Byte>)
    requires IsCode(c)
    ensures CodeLength(c + rest) == Some(|c|)
    ensures (c + rest)[..|c|] == c && (c + rest)[|c|..] == rest
  {
    if |c| > 1 {
      assert (c + rest)[1..] == c[1..] + rest;
      PrefixFree(c[1..], rest);
    }
  }

  /** The encoding algorithm of the standard, on an unbounded number. */
  function Uleb(y: nat): seq<Byte> {
    if y < 0x80 then [y] else [More(y)] + Uleb(y / 0x80)
  }

  lemma {:induction false} UlebRoundTrip(y: nat)
    ensures IsCode(Uleb(y)) && Decode(Uleb(y)) == y
  {
    if y >= 0x80 {
      UlebRoundTrip(y / 0x80);
      var tail := Uleb(y / 0x80);
      assert ([More(y)] + tail)[1..] == tail;
    }
  }

  lemma ShiftsCompose(x: int)
    ensures x / 0x80 / 0x80 == x / 0x4000
    ensures x / 0x80 / 0x4000 == x / 0x20_0000
    ensures x / 0x80 / 0x20_0000 == x / 0x1000_0000
    ensures x / 0x80 / 0x1000_0000 == x / 0x8_0000_0000
    ensures x / 0x80 / 0x8_0000_0000 == x / 0x400_0000_0000
    ensures x / 0x80 / 0x400_0000_0000 == x / 0x2_0000_0000_0000
    ensures x / 0x80 / 0x2_0000_0000_0000 == x / 0x100_0000_0000_0000
    ensures x / 0x80 / 0x100_0000_0000_0000 == x / 0x8000_0000_0000_0000
  {
  }

  /** Each unrolled branch of packInt64 for a value of at least 0x80 is the branch one shorter, for
      the value without its low group, behind one more byte. */
  lemma Pack64Peels(x: Int64)
    requires x >= 0x80
    ensures Pack64(x) == [More(x)] + Pack64(x / 0x80)
  {
    ShiftsCompose(x);
  }

  lemma {:induction false} Pack64IsUleb(x: Int64)
    requires x >= 0
    ensures Pack64(x) == Uleb(x)
    decreases x
  {
    if x >= 0x80 {
      Pack64Peels(x);
      Pack64IsUleb(x / 0x80);
    }
  }

  /** One byte of a negative value: adding a multiple of 0x80 does not change the low group. */
  lemma UlebOfNegative(x: int, m: nat)
    requires x < 0 && x + 0x80 * m >= 0x80
    ensures x / 0x80 + m >= 0 && Uleb(x + 0x80 * m) == [More(x)] + Uleb(x / 0x80 + m)
  {
    assert (x + 0x80 * m) / 0x80 == x / 0x80 + m;
    assert (x + 0x80 * m) % 0x80 == x % 0x80;
  }

  /** Two bytes of a negative value, named by its successive shifts. */
  lemma TwoGroups(x0: int, x1: int, x2: int, m: nat)
    requires x0 < 0 && x1 == x0 / 0x80 && x2 == x1 / 0x80
    requires x2 + m >= 1
    ensures Uleb(x0 + 0x4000 * m) == [More(x0), More(x1)] + Uleb(x2 + m)
  {
    UlebOfNegative(x0, 0x80 * m);
    UlebOfNegative(x1, m);
  }

  lemma ShiftAgain(x: int)
    ensures x / 0x80 / 0x80 == x / 0x4000
    ensures x / 0x4000 / 0x80 == x / 0x20_0000
    ensures x / 0x20_0000 / 0x80 == x / 0x1000_0000
    ensures x / 0x1000_0000 / 0x80 == x / 0x8_0000_0000
    ensures x / 0x8_0000_0000 / 0x80 == x / 0x400_0000_0000
    ensures x / 0x400_0000_0000 / 0x80 == x / 0x2_0000_0000_0000
    ensures x / 0x2_0000_0000_0000 / 0x80 == x / 0x100_0000_0000_0000
    ensures x / 0x100_0000_0000_0000 / 0x80 == x / 0x8000_0000_0000_0000
  {
  }

  /** A negative value takes all ten bytes of packInt64 and the last is 0x7f: the arithmetic shift fills
      the top group with the sign, as if the value had been 2^70 larger. */
  lemma NegativePack64(x: Int64)
    requires x < 0
    ensures Pack64(x) == Uleb(x + 0x40 * TWO64) && Pack64(x)[9] == 0x7f
  {
    ShiftAgain(x);
    var x2, x4, x6, x8 := x / 0x4000, x / 0x1000_0000, x / 0x400_0000_0000, x / 0x100_0000_0000_0000;
    assert x / 0x8000_0000_0000_0000 == -1;
    TwoGroups(x, x / 0x80, x2, 0x100_0000_0000_0000);
    TwoGroups(x2, x / 0x20_0000, x4, 0x400_0000_0000);
    TwoGroups(x4, x / 0x8_0000_0000, x6, 0x1000_0000);
    TwoGroups(x6, x / 0x2_0000_0000_0000, x8, 0x4000);
    UlebOfNegative(x8, 0x80);
    assert Uleb(0x7f) == [0x7f];
  }

  lemma LowGroupsOfPattern(x: Int32)
    requires x < 0
    ensures x % TWO32 == x + TWO32
    ensures (x + TWO32) / 0x80 == x / 0x80 + 0x200_0000
    ensures (x + TWO32) / 0x4000 == x / 0x4000 + 0x4_0000
    ensures (x + TWO32) / 0x20_0000 == x / 0x20_0000 + 0x800
    ensures (x + TWO32) / 0x1000_0000 == x / 0x1000_0000 + 0x10
  {
  }

  lemma MoreIgnoresMultiples(x: int, k: int)
    ensures More(x + 0x80 * k) == More(x)
  {
  }

  lemma TopNibble(x: Int32)
    ensures Low7(x % TWO32 / 0x1000_0000) == x / 0x1000_0000 % 0x10
  {
  }

  lemma NegativePack32(x: Int32)
    requires x < 0
    ensures Pack32(x) == Pack64(x + TWO32)
  {
    TopNibble(x);
    LowGroupsOfPattern(x);
    MoreIgnoresMultiples(x, 0x200_0000);
    MoreIgnoresMultiples(x / 0x80, 0x4_0000);
    MoreIgnoresMultiples(x / 0x4000, 0x800);
    MoreIgnoresMultiples(x / 0x20_0000, 0x10);
    hide More, Low7;
  }

  lemma PositivePack32(x: Int32)
    requires x >= 0
    ensures Pack32(x) == Pack64(x)
  {
    if x >= 0x1000_0000 {
      assert x / 0x1000_0000 % 0x10 == Low7(x / 0x1000_0000);
    }
    hide More, Low7;
  }

  /** packInt's code for a value is packInt64's code for the 32-bit pattern of that value. */
  lemma Pack32IsPack64(x: Int32)
    ensures Pack32(x) == Pack64(x % TWO32)
  {
    hide Pack32, Pack64;
    if x < 0 {
      NegativePack32(x);
      LowGroupsOfPattern(x);
    } else {
      PositivePack32(x);
    }
  }

  /** packInt's bytes decode to the 32-bit pattern of the value. */
  lemma Pack32RoundTrip(x: Int32)
    ensures Decode(Pack32(x)) == x % TWO32
    ensures IsCode(Pack32(x)) && 1 <= |Pack32(x)| <= 5
  {
    Pack32IsPack64(x);
    Pack64IsUleb(x % TWO32);
    UlebRoundTrip(x % TWO32);
  }

  /** packInt64's bytes decode, modulo 2^64, to the 64-bit pattern of the value. */
  lemma Pack64RoundTrip(x: Int64)
    ensures Decode(Pack64(x)) % TWO64 == x % TWO64
    ensures IsCode(Pack64(x)) && 1 <= |Pack64(x)| <= 10
  {
    hide *;
    Pack64Length(x);
    if x < 0 {
      NegativePack64(x);
      PatternOfNegative(x);
      UlebRoundTrip(x + 0x40 * TWO64);
    } else {
      Pack64IsUleb(x);
      UlebRoundTrip(x);
    }
  }

  lemma Pack64Length(x: Int64)
    ensures 1 <= |Pack64(x)| <= 10
  {
    hide More, Low7;
  }

  lemma PatternOfNegative(x: Int64)
    ensures x + 0x40 * TWO64 >= 0 && (x + 0x40 * TWO64) % TWO64 == x % TWO64
  {
  }
}
