/** Hexadecimal digits (mbm/mbm-ril/misc.c:93-127). */
module Hex {
  import opened Basics

  /** `char2nib`: anything that is not a digit counts as 0. */
  function Nibble(c: char): (n: nat)
    ensures n < 16
  {
    if '0' <= c <= '9' then c as int - 0x30
    else if 'A' <= c <= 'F' then c as int - 0x41 + 0xA
    else if 'a' <= c <= 'f' then c as int - 0x61 + 0xA
    else 0
  }

  /** A digit of a `%x` conversion. */
  function Digit(n: nat): (c: char)
    requires n < 16
    ensures Nibble(c) == n && c != '\0'
  {
    if n < 10 then (0x30 + n) as char else (0x61 + n - 10) as char
  }

  /** The byte that two digits stand for. */
  function ByteOf(hi: char, lo: char): Byte {
    Nibble(hi) * 16 + Nibble(lo)
  }

  /** A `%02x` conversion of a byte. */
  function TwoDigits(b: Byte): (s: string)
    ensures |s| == 2 && ByteOf(s[0], s[1]) == b
  {
    [Digit(b / 16), Digit(b % 16)]
  }

  /** A `%x` conversion. */
  function Digits(n: nat): (s: string)
    ensures n > 255 ==> |s| > 2
    ensures n > 15 ==> |s| > 1
    ensures s != "" && forall c <- s :: c != '\0'
  {
    if n < 16 then [Digit(n)] else Digits(n / 16) + [Digit(n % 16)]
  }

  /** A `%02x` conversion of any number. */
  function AtLeastTwoDigits(n: nat): (s: string)
    ensures |s| >= 2 && (n <= 255 <==> |s| == 2) && (n <= 255 ==> ByteOf(s[0], s[1]) == n)
  {
    if n <= 255 then TwoDigits(n) else Digits(n)
  }

  /** Eight digits are enough for what an int holds. */
  lemma {:induction false} DigitsOfInt(n: nat, k: nat)
    requires n < Power16(k) && k > 0
    ensures |Digits(n)| <= k
    decreases k
  {
    if n >= 16 {
      DigitsOfInt(n / 16, k - 1);
    }
  }

  function Power16(k: nat): nat {
    if k == 0 then 1 else 16 * Power16(k - 1)
  }

  /** `stringToBinary` on an even number of digits. */
  function Binary(s: string): (r: seq<Byte>)
    requires |s| % 2 == 0
    ensures 2 * |r| == |s|
  {
    if s == [] then [] else [ByteOf(s[0], s[1])] + Binary(s[2..])
  }

  /** The digits as they are written, and what is read as one. */
  lemma DigitsAsWritten(n: nat, c: char)
    ensures n < 16 ==> Digit(n) == "0123456789abcdef"[n] && Nibble("0123456789abcdef"[n]) == n
    ensures 10 <= n < 16 ==> Nibble("ABCDEF"[n - 10]) == n
    ensures c !in "0123456789abcdefABCDEF" ==> Nibble(c) == 0
  {
    assert c in "0123456789" <==> '0' <= c <= '9' by { TenDigits(c); }
    assert c in "abcdef" <==> 'a' <= c <= 'f' by { SixLetters(c); }
    assert c in "ABCDEF" <==> 'A' <= c <= 'F' by { SixLetters(c); }
    assert "0123456789abcdefABCDEF" == "0123456789" + "abcdef" + "ABCDEF";
  }

  lemma TenDigits(c: char)
    ensures c in "0123456789" <==> '0' <= c <= '9'
  {
    if '0' <= c <= '9' {
      assert "0123456789"[c as int - 0x30] == c;
    }
  }

  lemma SixLetters(c: char)
    ensures c in "abcdef" <==> 'a' <= c <= 'f'
    ensures c in "ABCDEF" <==> 'A' <= c <= 'F'
  {
    if 'a' <= c <= 'f' {
      assert "abcdef"[c as int - 0x61] == c;
    }
    if 'A' <= c <= 'F' {
      assert "ABCDEF"[c as int - 0x41] == c;
    }
  }

  /** Two digits a byte, the high one first. */
  lemma {:induction false} BinaryIs(s: string, i: nat)
    requires |s| % 2 == 0 && i < |s| / 2
    ensures |Binary(s)| == |s| / 2 && Binary(s)[i] == 16 * Nibble(s[2 * i]) + Nibble(s[2 * i + 1])
    decreases i
  {
    hide Nibble;
    if i > 0 {
      BinaryIs(s[2..], i - 1);
    }
  }
}
