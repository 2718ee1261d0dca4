/** Bytes, optional values, a counting semaphore and facts about sequences: what the other modules share. */
module Basics {

  type Byte = b: int | 0 <= b < 256

  datatype Option<+T> = None | Some(value: T)

  lemma SplitSlice<T>(s: seq<T>, a: nat, b: nat, c: nat)
    requires a <= b <= c <= |s|
    ensures s[a..c] == s[a..b] + s[b..c]
  {
  }

  lemma SplitPrefix<T>(s: seq<T>, b: nat, c: nat)
    requires b <= c <= |s|
    ensures s[..c] == s[..b] + s[b..c]
  {
  }

  lemma Associate<T>(a: seq<T>, b: seq<T>, c: seq<T>)
    ensures a + (b + c) == a + b + c
  {
  }

  lemma DropOfConcat<T>(a: seq<T>, b: seq<T>, n: nat)
    requires n <= |a|
    ensures (a + b)[n..] == a[n..] + b && (a + b)[..n] == a[..n]
  {
  }

  lemma SliceOfSlice<T>(s: seq<T>, a: nat, b: nat, c: nat, d: nat)
    requires a <= b <= |s| && c <= d <= b - a
    ensures s[a..b][c..d] == s[a + c..a + d]
    ensures s[a..b][c..] == s[a + c..b]
    ensures s[a..b][..d] == s[a..a + d]
  {
    var t := s[a..b];
    assert |t[c..d]| == d - c && forall i | 0 <= i < d - c :: t[c..d][i] == t[c + i] == s[a + c + i];
    assert t[c..d] == s[a + c..a + d];
    assert t[c..] == s[a + c..b];
    assert t[..d] == s[a..a + d];
  }

  /** A change leaves what stands before and behind it alone. */
  lemma SlicesStay<T>(s: seq<T>, i: nat, x: T, p: nat, a: nat, b: nat)
    requires p <= i < |s| && a <= b <= |s| && (b <= i || i < a)
    ensures s[i := x][a..b] == s[a..b] && s[i := x][..p] == s[..p]
  {
  }

  /** A POSIX semaphore seen through its count. Waiting is enabled only when the count is positive. */
  class Semaphore {
    var count: nat

    constructor (initial: nat)
      ensures count == initial
    {
      count := initial;
    }

    method Post()
      modifies this
      ensures count == old(count) + 1
    {
      count := count + 1;
    }

    method Wait()
      requires count > 0
      modifies this
      ensures count == old(count) - 1
    {
      count := count - 1;
    }
  }
}
