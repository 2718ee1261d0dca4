/** Byte rings: positions that wrap at a size, and what a stretch of a ring holds. `p & (size - 1)`, on
    a size that is a power of two and a p below twice the size, is `Masked(p, size)`. */
module Ring {
  import opened Basics

  predicate IsPowerOfTwo(n: nat) {
    n == 1 || (n > 0 && n % 2 == 0 && IsPowerOfTwo(n / 2))
  }

  function Masked(p: nat, size: nat): nat
    requires p < 2 * size
  {
    if p < size then p else p - size
  }

  /** How far it is from a forward to b. */
  function Gap(a: nat, b: nat, size: nat): nat
    requires a < size && b < size
  {
    if b < a then b - a + size else b - a
  }

  /** The ring with `code` stored from position pos on. */
  function Put(bytes: seq<Byte>, pos: nat, code: seq<Byte>): (r: seq<Byte>)
    requires pos < |bytes|
    ensures |r| == |bytes|
  {
    seq(|bytes|, k requires 0 <= k < |bytes| =>
      if Gap(pos, k, |bytes|) < |code| then code[Gap(pos, k, |bytes|)] else bytes[k])
  }

  /** The `len` bytes from position pos on. */
  function Slice(bytes: seq<Byte>, pos: nat, len: nat): (r: seq<Byte>)
    requires pos < |bytes| && len <= |bytes|
    ensures |r| == len
  {
    seq(len, i requires 0 <= i < len => bytes[Masked(pos + i, |bytes|)])
  }

  /** Storing right behind a stretch extends it, as long as it stays shorter than the ring. */
  lemma PutExtends(bytes: seq<Byte>, pos: nat, len: nat, code: seq<Byte>)
    requires pos < |bytes| && len + |code| <= |bytes| && len < |bytes|
    ensures var r := Put(bytes, Masked(pos + len, |bytes|), code);
            Slice(r, pos, len + |code|) == Slice(bytes, pos, len) + code
  {
    var at := Masked(pos + len, |bytes|);
    var r := Put(bytes, at, code);
    forall i | 0 <= i < len + |code|
      ensures Slice(r, pos, len + |code|)[i] == (Slice(bytes, pos, len) + code)[i]
    {
      var k := Masked(pos + i, |bytes|);
      assert Gap(at, k, |bytes|) == if i < len then i - len + |bytes| else i - len;
    }
  }

  lemma SliceSplits(bytes: seq<Byte>, pos: nat, a: nat, b: nat)
    requires pos < |bytes| && a + b <= |bytes|
    ensures Slice(bytes, pos, a + b) == Slice(bytes, pos, a) + Slice(bytes, Masked(pos + a, |bytes|), b)
  {
    var whole := Slice(bytes, pos, a + b);
    var parts := Slice(bytes, pos, a) + Slice(bytes, Masked(pos + a, |bytes|), b);
    forall i | 0 <= i < a + b
      ensures whole[i] == parts[i]
    {
      if a <= i {
        var mid := Masked(pos + a, |bytes|);
        assert parts[i] == Slice(bytes, mid, b)[i - a];
        assert Masked(mid + (i - a), |bytes|) == Masked(pos + i, |bytes|);
      }
    }
  }

  lemma SlicePrefix(bytes: seq<Byte>, pos: nat, k: nat, len: nat)
    requires pos < |bytes| && k <= len <= |bytes|
    ensures Slice(bytes, pos, k) == Slice(bytes, pos, len)[..k]
  {
  }

  /** Storing over bytes a .. a + |code| of a stretch replaces just those. */
  lemma PutWithin(bytes: seq<Byte>, pos: nat, a: nat, code: seq<Byte>, len: nat)
    requires pos < |bytes| && a + |code| <= len <= |bytes| && a < |bytes|
    ensures var r := Put(bytes, Masked(pos + a, |bytes|), code);
            Slice(r, pos, len)
            == Slice(bytes, pos, len)[..a] + code + Slice(bytes, pos, len)[a + |code|..]
  {
    var at := Masked(pos + a, |bytes|);
    var r := Put(bytes, at, code);
    var want := Slice(bytes, pos, len)[..a] + code + Slice(bytes, pos, len)[a + |code|..];
    forall i | 0 <= i < len
      ensures Slice(r, pos, len)[i] == want[i]
    {
      var k := Masked(pos + i, |bytes|);
      assert Gap(at, k, |bytes|) == if i < a then i - a + |bytes| else i - a;
    }
  }

  lemma GapBehind(pos: nat, len: nat, size: nat)
    requires pos < size && len < size
    ensures Gap(pos, Masked(pos + len, size), size) == len
  {
  }

  lemma PutAppend(bytes: seq<Byte>, pos: nat, code: seq<Byte>, b: Byte)
    requires pos < |bytes| && |code| < |bytes|
    ensures Put(bytes, pos, code)[Masked(pos + |code|, |bytes|) := b] == Put(bytes, pos, code + [b])
  {
    GapBehind(pos, |code|, |bytes|);
  }
}
