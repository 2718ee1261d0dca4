/** When the buffer of `readline` is ditched with part of a line in it (mbm/mbm-ril/atchannel.c:506-513): if
    every line fits, never; and if one does not, then in some way of reading the stream. */
module AtOverflow {
  import opened Basics
  import opened AtReadLine

  const ROOM: nat := MAX_AT_RESPONSE - 2

  /** Newlines alone never fill the buffer. */
  ghost predicate NoFlood(s: string) {
    forall i, j | 0 <= i <= j <= |s| && Newlines(s[i..j]) :: j - i < ROOM
  }

  /** Something is ditched from the middle of a call on. */
  predicate LosesFrom(rest: string, used: nat, incoming: string, sizes: seq<nat>) {
    var r := Fill(rest, used, incoming, sizes, false);
    r.lost || (r.line.Some? && Loses(r.rest, r.incoming, r.sizes))
  }

  lemma LosesFromEmpty(incoming: string, sizes: seq<nat>)
    ensures Loses("", incoming, sizes) == LosesFrom("", 0, incoming, sizes)
  {
    NextUnfolds("", incoming, sizes);
    NothingInBuffer();
    hide NextLine, Fill;
  }

  /** One byte is read, and there is room for it. */
  lemma ByteRead(rest: string, used: nat, c: char, more: string, tail: seq<nat>)
    requires used < ROOM
    ensures var s := Skip(rest + [c]);
            Fill(rest, used, [c] + more, [1] + tail, false)
            == if Eol(s).Some? then Found(s, more, tail, false) else Fill(s, used + 1, more, tail, false)
  {
    hide Fill, Skip, Eol, Found;
    FillUnfolds(rest, used, [c] + more, [1] + tail, false);
    CountOne(used, [c] + more, tail);
    assert ([c] + more)[..1] == [c] && ([c] + more)[1..] == more;
  }

  // ----- a call that fills the buffer

  lemma {:induction false} SkipThrough(a: string, b: string)
    ensures Skip(Skip(a) + b) == Skip(a + b)
    decreases |a|
  {
    if a != "" && IsNewline(a[0]) {
      assert (a + b)[1..] == a[1..] + b;
      SkipThrough(a[1..], b);
    }
  }

  /** None of the bytes completes a line. */
  ghost predicate NoLineIn(rest: string, p: string) {
    forall k | 0 <= k <= |p| :: Eol(Skip(rest + p[..k])) == None
  }

  lemma NoLineNext(rest: string, c: char, p: string)
    requires NoLineIn(rest, [c] + p)
    ensures Eol(Skip(rest + [c])) == None && NoLineIn(Skip(rest + [c]), p)
    ensures Skip(Skip(rest + [c]) + p) == Skip(rest + ([c] + p))
  {
    hide Skip, Eol;
    assert ([c] + p)[..1] == [c];
    forall k | 0 <= k <= |p| ensures Eol(Skip(Skip(rest + [c]) + p[..k])) == None {
      SkipThrough(rest + [c], p[..k]);
      assert rest + ([c] + p)[..k + 1] == rest + [c] + p[..k];
    }
    SkipThrough(rest + [c], p);
    Associate(rest, [c], p);
  }

  /** Bytes that fill the buffer without completing a line are ditched, unless they are only newlines. */
  lemma {:induction false} FullIsDitched(rest: string, used: nat, p: string, q: string, a: seq<nat>)
    requires used + |p| == ROOM && NoLineIn(rest, p) && Skip(rest + p) != "" && Skip(rest) == rest
    ensures LosesFrom(rest, used, p + q, Ones(|p|) + a)
    decreases |p|
  {
    hide *;
    if p == "" {
      assert rest + p == rest && p + q == q;
      NoOnes(a);
      FullNow(rest, q, a);
    } else {
      var c, p1 := p[0], p[1..];
      assert p == [c] + p1 && p + q == [c] + (p1 + q);
      OnesCons(|p|, a);
      NoLineNext(rest, c, p1);
      ByteRead(rest, used, c, p1 + q, Ones(|p1|) + a);
      SkipThrough(rest + [c], "");
      var s := Skip(rest + [c]);
      assert s + "" == s && rest + [c] + "" == rest + [c];
      FullIsDitched(s, used + 1, p1, q, a);
      SameFill(rest, used, p + q, [1] + (Ones(|p1|) + a), s, used + 1, p1 + q, Ones(|p1|) + a);
    }
  }

  lemma FullNow(rest: string, q: string, a: seq<nat>)
    requires rest != ""
    ensures LosesFrom(rest, ROOM, q, a)
  {
    hide Fill;
    FillUnfolds(rest, ROOM, q, a, false);
    LostStays("", 0, q, a);
  }

  lemma SameFill(rest: string, used: nat, incoming: string, sizes: seq<nat>, s: string, u: nat, more: string,
      tail: seq<nat>)
    requires Fill(rest, used, incoming, sizes, false) == Fill(s, u, more, tail, false)
    ensures LosesFrom(rest, used, incoming, sizes) == LosesFrom(s, u, more, tail)
  {
    hide Fill, Loses;
  }

  lemma FoundLoses(rest: string, used: nat, incoming: string, sizes: seq<nat>, s: string, more: string,
      tail: seq<nat>)
    requires Eol(s).Some? && Fill(rest, used, incoming, sizes, false) == Found(s, more, tail, false)
    requires Eol(s).value + 1 >= |s|
    ensures LosesFrom(rest, used, incoming, sizes) == LosesFrom("", 0, more, tail)
  {
    FoundIs(s, Eol(s).value, more, tail, false);
    LosesFromEmpty(more, tail);
    hide Fill, Eol, Loses;
  }

  // ----- on the way there

  lemma {:induction false} SuffixStart(s: string, n: nat, m: nat)
    requires Start(s, n) && Start(s, m) && n <= m
    ensures Start(s[n..], m - n)
    decreases m
  {
    if n < m && !IsNewline(s[m - 1]) && m - 2 >= n {
      SuffixStart(s, n, m - 2);
    }
  }

  /** No call begins inside a line. */
  lemma {:induction false} NoStartInside(rest: string, n: nat)
    requires n <= |rest| && Start(rest, n) && !("> " <= rest) && forall k | 0 <= k < |rest| :: !IsNewline(rest[k])
    ensures n == 0
    decreases n
  {
    if n > 0 {
      NoStartInside(rest, n - 2);
    }
  }

  /** The buffer in the middle of a call that reads byte by byte. */
  predicate Reading(rest: string) {
    Eol(rest) == None && (rest == "" || !IsNewline(rest[0])) && !("> " <= rest)
  }

  lemma ByteReading(rest: string, c: char)
    requires Reading(rest)
    ensures Reading("")
    ensures var s := Skip(rest + [c]);
            if rest == "" && IsNewline(c) then s == ""
            else s == rest + [c] && (if Eol(s).Some? then Eol(s).value + 1 >= |s| else Reading(s))
    ensures Eol(Skip(rest + [c])).Some? <==> (rest != "" && IsNewline(c)) || rest + [c] == "> "
  {
    ByteCases(rest, c);
    NothingInBuffer();
    var t := rest + [c];
    PromptPrefix(rest, c);
    assert t[0] == if rest == "" then c else rest[0];
    hide Skip, Eol;
  }

  lemma PromptPrefix(rest: string, c: char)
    ensures "> " <= rest + [c] ==> rest + [c] == "> " || "> " <= rest
  {
    if |rest| >= 2 {
      assert (rest + [c])[..2] == rest[..2];
    }
  }

  lemma ReadingIsPlain(rest: string)
    requires Reading(rest)
    ensures forall k | 0 <= k < |rest| :: !IsNewline(rest[k])
  {
  }

  lemma FloodSuffix(s: string, n: nat)
    requires NoFlood(s) && n <= |s|
    ensures NoFlood(s[n..])
  {
    hide Newlines;
    var t := s[n..];
    forall i, j | 0 <= i <= j <= |t| && Newlines(t[i..j]) ensures j - i < ROOM {
      assert t[i..j] == s[n + i..n + j];
    }
  }

  /** A run of newlines in front is shorter than the buffer. */
  lemma ShortRun(a: string, b: string)
    requires NoFlood(a + b) && Newlines(a)
    ensures |a| < ROOM
  {
    hide Newlines;
    assert (a + b)[0..|a|] == a;
  }

  /** Read byte by byte up to a place where a call may begin, a stream has left nothing in the buffer, unless
      something has been ditched. */
  lemma {:induction false} BytewiseTo(dead: string, rest: string, p: string, q: string, a: seq<nat>)
    returns (d: string)
    requires Newlines(dead) && Reading(rest) && NoFlood(dead + rest + (p + q)) && Start(rest + p, |rest + p|)
    ensures Newlines(d) && NoFlood(d + q)
    ensures LosesFrom("", |d|, q, a) ==> LosesFrom(rest, |dead| + |rest|, p + q, Ones(|p|) + a)
    decreases |p|
  {
    hide *;
    var used := |dead| + |rest|;
    if p == "" {
      d := dead;
      EndOfWay(dead, rest, q, a);
    } else if used >= ROOM {
      d := "";
      TooFull(dead, rest, p, q, Ones(|p|) + a);
    } else {
      var c, p1 := p[0], p[1..];
      var more, tail := p1 + q, Ones(|p1|) + a;
      Peeled(p, q, a);
      ByteRead(rest, used, c, more, tail);
      ByteReading(rest, c);
      ByteSuffixes(dead, rest, c, p1, q);
      var s := Skip(rest + [c]);
      if Eol(s).Some? {
        FoundLoses(rest, used, p + q, [1] + tail, s, more, tail);
        NothingRead();
        d := BytewiseTo("", "", p1, q, a);
      } else {
        SameFill(rest, used, p + q, [1] + tail, s, used + 1, more, tail);
        d := BytewiseTo(if s == "" then dead + [c] else dead, s, p1, q, a);
      }
    }
  }

  lemma Peeled(p: string, q: string, a: seq<nat>)
    requires p != ""
    ensures p == [p[0]] + p[1..] && p + q == [p[0]] + (p[1..] + q)
    ensures Ones(|p|) + a == [1] + (Ones(|p[1..]|) + a)
  {
    OnesCons(|p|, a);
  }

  lemma EndOfWay(dead: string, rest: string, q: string, a: seq<nat>)
    requires Newlines(dead) && Reading(rest) && NoFlood(dead + rest + ("" + q)) && Start(rest + "", |rest + ""|)
    ensures rest == "" && "" + q == q && NoFlood(dead + q) && Ones(0) + a == a
  {
    hide NoFlood, Newlines, Reading, Start;
    assert rest + "" == rest && "" + q == q;
    ReadingStops(rest);
    NoOnes(a);
    assert dead + rest + q == dead + q;
  }

  lemma ReadingStops(rest: string)
    requires Reading(rest) && Start(rest, |rest|)
    ensures rest == ""
  {
    ReadingIsPlain(rest);
    NoStartInside(rest, |rest|);
  }

  lemma TooFull(dead: string, rest: string, p: string, q: string, sizes: seq<nat>)
    requires Newlines(dead) && NoFlood(dead + rest + (p + q)) && |dead| + |rest| >= ROOM
    ensures LosesFrom(rest, |dead| + |rest|, p + q, sizes) && Newlines("") && NoFlood("" + q)
  {
    hide Fill, NoFlood;
    var x := dead + rest + (p + q);
    assert x[|dead + rest + p|..] == q == "" + q;
    FloodSuffix(x, |dead + rest + p|);
    hide Newlines;
    if rest == "" {
      assert x == dead + (p + q);
      ShortRun(dead, p + q);
    } else {
      FillUnfolds(rest, |dead| + |rest|, p + q, sizes, false);
      LostStays("", 0, p + q, sizes);
    }
  }

  /** What is left to be read behind a newline or a prompt. */
  lemma Behind(dead: string, rest: string, c: char, p: string, q: string)
    requires NoFlood(dead + rest + ([c] + (p + q))) && (IsNewline(c) || rest + [c] == "> ")
    requires Start(rest + ([c] + p), |rest + ([c] + p)|)
    ensures NoFlood(p + q) && Start(p, |p|)
  {
    hide *;
    AfterByte(rest, c, p);
    Regrouped(dead, rest, c, p, q);
    SuffixStart(rest + ([c] + p), |rest| + 1, |rest + ([c] + p)|);
    FloodSuffix(dead + rest + ([c] + (p + q)), |dead| + |rest| + 1);
  }

  /** What one more byte leaves to be read. */
  lemma ByteSuffixes(dead: string, rest: string, c: char, p: string, q: string)
    requires Newlines(dead) && Reading(rest) && NoFlood(dead + rest + ([c] + (p + q)))
    requires Start(rest + ([c] + p), |rest + ([c] + p)|)
    ensures var s := Skip(rest + [c]);
            if Eol(s).Some? then NoFlood("" + "" + (p + q)) && Start("" + p, |"" + p|)
            else var d := if s == "" then dead + [c] else dead;
                 Newlines(d) && NoFlood(d + s + (p + q)) && Start(s + p, |s + p|) && |d| + |s| == |dead| + |rest| + 1
  {
    hide *;
    ByteReading(rest, c);
    NothingAdded(p);
    NothingAdded(p + q);
    if Eol(Skip(rest + [c])).Some? {
      Behind(dead, rest, c, p, q);
    } else if rest == "" && IsNewline(c) {
      Behind(dead, rest, c, p, q);
      OneMore(dead, c);
      assert dead + rest + ([c] + (p + q)) == (dead + [c]) + "" + (p + q);
    } else {
      assert dead + rest + ([c] + (p + q)) == dead + (rest + [c]) + (p + q);
      assert rest + ([c] + p) == rest + [c] + p;
    }
  }

  lemma NothingAdded(s: string)
    ensures "" + s == s && "" + "" + s == s
  {
  }

  lemma OneMore(dead: string, c: char)
    ensures Newlines(dead) && IsNewline(c) ==> Newlines(dead + [c])
  {
  }

  lemma Regrouped(dead: string, rest: string, c: char, p: string, q: string)
    ensures var t := rest + ([c] + p); t[|rest| + 1..] == p && |p| == |t| - (|rest| + 1)
    ensures var x := dead + rest + ([c] + (p + q)); |x| >= |dead| + |rest| + 1 && x[|dead| + |rest| + 1..] == p + q
  {
  }

  lemma AfterByte(rest: string, c: char, p: string)
    requires (IsNewline(c) || rest + [c] == "> ")
    ensures Start(rest + ([c] + p), |rest| + 1)
  {
    var t := rest + ([c] + p);
    assert t[|rest|] == c;
    if rest + [c] == "> " {
      assert rest == (rest + [c])[..|rest|] && c == (rest + [c])[|rest|];
      assert t[0] == '>' && t[1] == ' ' && |rest| == 1;
    }
  }

  // ----- and back

  /** Without prompts that go on, a line only begins behind a newline. */
  lemma {:induction false} LineBegins(s: string, n: nat)
    requires NoPrompt(s) && Start(s, n) && n < |s| && !IsNewline(s[n])
    ensures n == 0 || IsNewline(s[n - 1])
    decreases n
  {
    if n > 0 && !IsNewline(s[n - 1]) {
      LineBegins(s, n - 2);
      assert PromptAt(s, n - 2);
    }
  }

  /** Newlines, and then part of a line that is not a prompt: no line yet. */
  lemma NoLineInPart(dead: string, part: string)
    requires Newlines(dead) && part != "" && !("> " <= part) && forall k | 0 <= k < |part| :: !IsNewline(part[k])
    ensures NoLineIn("", dead + part) && Skip("" + (dead + part)) == part
  {
    var p := dead + part;
    forall k | 0 <= k <= |p| ensures Eol(Skip("" + p[..k])) == None {
      assert "" + p[..k] == p[..k];
      if k <= |dead| {
        assert p[..k] == dead[..k] + "";
        DeadIsSkipped(dead[..k], "");
        NothingInBuffer();
      } else {
        var r := part[..k - |dead|];
        assert p[..k] == dead + r;
        DeadIsSkipped(dead, r);
        NoNewlineIn(r);
        assert r != "> ";
      }
      hide Skip, FirstNewline;
    }
    assert "" + p == p;
    DeadIsSkipped(dead, part);
  }

  /** A line that does not fit is ditched, if the call that comes to it reads byte by byte. */
  lemma LongLineIsDitched(d: string, q: string, n: nat, a: seq<nat>)
    requires Newlines(d) && NoFlood(d + q) && n <= |q| && Partial(q[..n]) && n >= ROOM
    requires !("> " <= Skip(q[..n]))
    ensures |d| < ROOM && LosesFrom("", |d|, q, Ones(ROOM - |d|) + a)
  {
    hide *;
    var dead := SkipSplits(q[..n]);
    var line := Skip(q[..n]);
    PartialIs(q[..n]);
    PlainLine(line);
    StillDead(d, dead);
    LineSplits(d, q, n, dead, line);
    ShortRun(d + dead, line + q[n..]);
    var m := ROOM - |d| - |dead|;
    var p := dead + line[..m];
    PartOfLine(line, m);
    NoLineInPart(dead, line[..m]);
    NothingInBuffer();
    FullIsDitched("", |d|, p, q[|p|..], a);
  }

  lemma LineSplits(d: string, q: string, n: nat, dead: string, line: string)
    requires n <= |q| && q[..n] == dead + line
    ensures d + q == (d + dead) + (line + q[n..]) && |dead| + |line| == n
    ensures forall m | 0 <= m <= |line| ::
              |dead + line[..m]| <= |q| && q == (dead + line[..m]) + q[|dead + line[..m]|..]
  {
    assert q == q[..n] + q[n..];
    forall m | 0 <= m <= |line| ensures q == (dead + line[..m]) + q[|dead + line[..m]|..] {
      assert (dead + line)[..|dead| + m] == dead + line[..m];
      assert q[..|dead| + m] == q[..n][..|dead| + m];
    }
  }

  lemma PartOfLine(line: string, m: nat)
    requires m <= |line| && !("> " <= line) && forall k | 0 <= k < |line| :: !IsNewline(line[k])
    ensures !("> " <= line[..m]) && forall k | 0 <= k < |line[..m]| :: !IsNewline(line[..m][k])
  {
    hide IsNewline;
  }

  lemma PartialIs(t: string)
    ensures Partial(t) <==> Skip(t) != "" && Eol(Skip(t)) == None
  {
    hide Skip, Eol;
  }

  lemma PlainLine(line: string)
    requires Eol(line) == None
    ensures forall k | 0 <= k < |line| :: !IsNewline(line[k])
  {
  }

  lemma ALongLine(s: string) returns (i: nat, j: nat)
    requires !LinesFit(s)
    ensures i <= j <= |s| && Start(s, i) && Partial(s[i..j]) && j - i >= ROOM
  {
    hide Start, Partial;
    i, j :| 0 <= i <= j <= |s| && Start(s, i) && Partial(s[i..j]) && j - i >= ROOM;
  }

  /** The line that does not fit is no prompt. */
  lemma LongLineIsNoPrompt(s: string, i: nat, j: nat)
    requires NoPrompt(s) && i <= j <= |s| && Start(s, i) && Partial(s[i..j])
    ensures !("> " <= Skip(s[i..j]))
  {
    hide *;
    PartialIs(s[i..j]);
    var dead := SkipSplits(s[i..j]);
    var line := Skip(s[i..j]);
    PlainLine(line);
    if "> " <= line {
      PromptGoesOn(line);
      CharsOf(s, i, j, dead, line);
      NotNewlines();
      if dead == "" {
        LineBegins(s, i);
      }
      PromptBreaks(s, i + |dead|);
    }
  }

  lemma CharsOf(s: string, i: nat, j: nat, dead: string, line: string)
    requires i <= j <= |s| && s[i..j] == dead + line && |line| > 2 && Newlines(dead)
    ensures var k := i + |dead|;
            && k + 2 < |s| && s[k] == line[0] && s[k + 1] == line[1] && s[k + 2] == line[2]
            && (dead != "" ==> IsNewline(s[k - 1]))
            && s[i] == if dead == "" then line[0] else dead[0]
  {
    var t := s[i..j];
    assert forall n | 0 <= n < |line| :: t[|dead| + n] == line[n] && s[i + |dead| + n] == t[|dead| + n];
    assert forall n | 0 <= n < |dead| :: t[n] == dead[n] && s[i + n] == t[n];
    if dead != "" {
      assert IsNewline(dead[|dead| - 1]);
    }
    hide IsNewline;
  }

  lemma PromptGoesOn(line: string)
    requires "> " <= line && Eol(line) == None
    ensures |line| > 2 && line[0] == '>' && line[1] == ' '
  {
    assert |line| == 2 ==> line == "> ";
  }

  lemma PromptBreaks(s: string, k: nat)
    requires k + 2 < |s| && s[k] == '>' && s[k + 1] == ' ' && !IsNewline(s[k + 2])
    requires k == 0 || IsNewline(s[k - 1])
    ensures !NoPrompt(s)
  {
    assert PromptAt(s, k);
  }

  /** Whatever the reads, nothing is ditched, if and only if every line fits: on streams in which no line begins
      with the prompt and goes on, and newlines alone never fill the buffer. */
  lemma NothingDitchedExactlyIfLinesFit(stream: string)
    requires NoPrompt(stream) && NoFlood(stream)
    ensures LinesFit(stream) <==> forall sizes: seq<nat> :: !Loses("", stream, sizes)
  {
    hide *;
    assert "" + stream == stream;
    if LinesFit(stream) {
      forall sizes: seq<nat> ensures !Loses("", stream, sizes) {
        ShortLinesAreNotLost("", stream, sizes);
      }
    } else {
      var sizes := WayToDitch(stream);
      assert Loses("", stream, sizes);
    }
  }

  lemma WayToDitch(stream: string) returns (sizes: seq<nat>)
    requires NoPrompt(stream) && NoFlood(stream) && !LinesFit(stream)
    ensures Loses("", stream, sizes)
  {
    hide *;
    var i, j := ALongLine(stream);
    LongLineIsNoPrompt(stream, i, j);
    var p, q := stream[..i], stream[i..];
    assert q[..j - i] == stream[i..j] && stream == p + q;
    assert "" + "" + (p + q) == p + q && "" + p == p;
    StartOfPrefix(stream, i);
    NothingRead();
    var d := BytewiseTo("", "", p, q, Ones(ROOM));
    LongLineIsDitched(d, q, j - i, Ones(|d|));
    OnesAdd(ROOM - |d|, |d|);
    LosesFromEmpty(stream, Ones(i) + Ones(ROOM));
    sizes := Ones(i) + Ones(ROOM);
  }

  lemma NothingRead()
    ensures Reading("") && Newlines("")
  {
  }

  lemma OnesAdd(m: nat, n: nat)
    ensures Ones(m) + Ones(n) == Ones(m + n)
  {
  }

  lemma {:induction false} StartOfPrefix(s: string, i: nat)
    requires Start(s, i)
    ensures i <= |s| && Start(s[..i], i)
    decreases i
  {
    if i > 0 && !IsNewline(s[i - 1]) {
      StartOfPrefix(s, i - 2);
      StartExtends(s[..i - 2], s[..i], i - 2);
    }
  }

  lemma {:induction false} StartExtends(a: string, b: string, i: nat)
    requires a <= b && Start(a, i)
    ensures Start(b, i)
    decreases i
  {
    if i > 0 && !IsNewline(a[i - 1]) {
      StartExtends(a, b, i - 2);
    }
  }
}
