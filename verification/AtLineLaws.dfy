/** What lines are, character by character (mbm/mbm-ril/atchannel.c:439-604): a carriage return or a line feed
    ends one, and is in none. */
module AtLineLaws {
  import opened Basics
  import opened AtReadLine

  /** A line is not empty and has neither of the two characters in it. */
  predicate Clean(line: string) {
    line != "" && '\r' !in line && '\n' !in line
  }

  lemma LineIsClean(s: string, incoming: string, sizes: seq<nat>, lost: bool)
    requires Eol(s).Some? && (s == "" || !IsNewline(s[0]))
    ensures var r := Found(s, incoming, sizes, lost); r.line.Some? && Clean(r.line.value)
  {
    var e := Eol(s).value;
    assert forall k | 0 <= k < e :: s[k] != '\r' && s[k] != '\n';
    hide FirstNewline, Rest;
  }

  lemma {:induction false} FillIsClean(rest: string, used: nat, incoming: string, sizes: seq<nat>, lost: bool)
    ensures var r := Fill(rest, used, incoming, sizes, lost); r.line.Some? ==> Clean(r.line.value)
    decreases |incoming|
  {
    hide *;
    FillUnfolds(rest, used, incoming, sizes, lost);
    var u := if used >= MAX_AT_RESPONSE - 2 then 0 else used;
    if incoming != "" {
      var n := Count(u, incoming, sizes);
      var t := (if used >= MAX_AT_RESPONSE - 2 then "" else rest) + incoming[..n];
      var l := lost || (used >= MAX_AT_RESPONSE - 2 && rest != "");
      SkipStarts(t);
      if Eol(Skip(t)).Some? {
        LineIsClean(Skip(t), incoming[n..], Tail(sizes), l);
      } else {
        FillIsClean(Skip(t), u + n, incoming[n..], Tail(sizes), l);
      }
    }
  }

  /** Whatever comes in and however, no line is empty or has one of the two in it. */
  lemma {:induction false} LinesAreClean(rest: string, incoming: string, sizes: seq<nat>)
    ensures forall l <- Lines(rest, incoming, sizes) :: l != "" && '\r' !in l && '\n' !in l
    decreases |rest| + |incoming|
  {
    hide Fill, Skip, Eol, Found, NextLine;
    var r := NextLine(rest, incoming, sizes);
    NextUnfolds(rest, incoming, sizes);
    NextConsumes(rest, incoming, sizes);
    SkipStarts(rest);
    if Eol(Skip(rest)).Some? {
      LineIsClean(Skip(rest), incoming, sizes, false);
    } else {
      FillIsClean(Skip(rest), |Skip(rest)|, incoming, sizes, false);
    }
    if r.line.Some? {
      LinesAreClean(r.rest, r.incoming, r.sizes);
    }
  }

  // ----- the pieces of a stream

  predicate Between(s: string, a: nat, b: nat)
    requires b <= |s|
  {
    forall i | a <= i < b :: s[i] != '\r' && s[i] != '\n'
  }

  predicate AtBeginning(s: string, a: nat)
    requires a <= |s|
  {
    a == 0 || s[a - 1] == '\r' || s[a - 1] == '\n'
  }

  /** A piece is what stands from a to b: neither character is in it, one is before it or it is at the beginning,
      and one is behind it, or it is a prompt at the end. */
  predicate IsPiece(s: string, piece: string, a: nat, b: nat) {
    && a < b <= |s| && piece == s[a..b] && Between(s, a, b) && AtBeginning(s, a)
    && (if b < |s| then s[b] == '\r' || s[b] == '\n' else piece == "> ")
  }

  predicate InPiece(places: seq<(nat, nat)>, i: nat) {
    exists k | 0 <= k < |places| :: places[k].0 <= i < places[k].1
  }

  predicate PiecesAt(s: string, pieces: seq<string>, places: seq<(nat, nat)>) {
    |places| == |pieces| && forall k | 0 <= k < |places| :: IsPiece(s, pieces[k], places[k].0, places[k].1)
  }

  predicate InOrder(places: seq<(nat, nat)>) {
    forall j, k | 0 <= j < k < |places| :: places[j].1 < places[k].0
  }

  predicate TailAt(s: string, tail: nat) {
    tail <= |s| && Between(s, tail, |s|) && AtBeginning(s, tail)
  }

  /** Every character but the two is in a piece, unless it is in the tail and that is not just a prompt. */
  predicate Covers(s: string, places: seq<(nat, nat)>, tail: nat)
    requires tail <= |s|
  {
    forall i | 0 <= i < |s| && s[i] != '\r' && s[i] != '\n' :: InPiece(places, i) <==> i < tail || s[tail..] == "> "
  }

  /** Where the pieces are, in order; behind the last of the two characters comes the tail, which only is a piece
      if it is a prompt. Every other character is in one. */
  predicate PiecesAre(s: string, pieces: seq<string>, places: seq<(nat, nat)>, tail: nat) {
    PiecesAt(s, pieces, places) && InOrder(places) && TailAt(s, tail) && Covers(s, places, tail)
  }

  function Shifted(places: seq<(nat, nat)>, n: nat): seq<(nat, nat)> {
    seq(|places|, k requires 0 <= k < |places| => (places[k].0 + n, places[k].1 + n))
  }

  lemma ShiftedIn(places: seq<(nat, nat)>, n: nat, i: nat)
    ensures InPiece(Shifted(places, n), i) <==> i >= n && InPiece(places, i - n)
  {
    if InPiece(Shifted(places, n), i) {
      var k :| 0 <= k < |places| && Shifted(places, n)[k].0 <= i < Shifted(places, n)[k].1;
      assert places[k].0 <= i - n < places[k].1;
    }
    if i >= n && InPiece(places, i - n) {
      var k :| 0 <= k < |places| && places[k].0 <= i - n < places[k].1;
      assert Shifted(places, n)[k].0 <= i < Shifted(places, n)[k].1;
    }
  }

  lemma PieceShifts(s: string, n: nat, piece: string, a: nat, b: nat)
    requires n < |s| && (s[n] == '\r' || s[n] == '\n') && IsPiece(s[n + 1..], piece, a, b)
    ensures IsPiece(s, piece, a + n + 1, b + n + 1)
  {
    var t := s[n + 1..];
    assert forall i | 0 <= i < |t| :: t[i] == s[n + 1 + i];
    assert s[a + n + 1..b + n + 1] == t[a..b];
    assert forall i | a + n + 1 <= i < b + n + 1 :: s[i] == t[i - n - 1];
  }

  function Head(n: nat): seq<(nat, nat)> {
    if n == 0 then [] else [(0, n)]
  }

  function FirstPiece(s: string, n: nat): seq<string>
    requires n <= |s|
  {
    if n == 0 then [] else [s[..n]]
  }

  lemma CutPieces(s: string, n: nat, pieces: seq<string>, places: seq<(nat, nat)>)
    requires n < |s| && (s[n] == '\r' || s[n] == '\n') && Between(s, 0, n) && PiecesAt(s[n + 1..], pieces, places)
    ensures PiecesAt(s, FirstPiece(s, n) + pieces, Head(n) + Shifted(places, n + 1))
  {
    hide IsPiece, Between;
    var moved := Shifted(places, n + 1);
    assert |moved| == |places|;
    forall i | 0 <= i < |moved| ensures IsPiece(s, pieces[i], moved[i].0, moved[i].1) {
      PieceShifts(s, n, pieces[i], places[i].0, places[i].1);
    }
    if n > 0 {
      FirstIsPiece(s, n);
    }
    hide Shifted;
    PiecesJoin(s, FirstPiece(s, n), Head(n), pieces, moved);
  }

  lemma PiecesJoin(s: string, a: seq<string>, p: seq<(nat, nat)>, b: seq<string>, q: seq<(nat, nat)>)
    requires PiecesAt(s, a, p) && PiecesAt(s, b, q)
    ensures PiecesAt(s, a + b, p + q)
  {
    hide IsPiece;
  }

  lemma FirstIsPiece(s: string, n: nat)
    requires 0 < n < |s| && (s[n] == '\r' || s[n] == '\n') && Between(s, 0, n)
    ensures IsPiece(s, s[..n], 0, n)
  {
    assert s[0..n] == s[..n];
  }

  lemma CutInOrder(n: nat, places: seq<(nat, nat)>)
    requires InOrder(places)
    ensures InOrder(Head(n) + Shifted(places, n + 1))
  {
    var moved := Head(n) + Shifted(places, n + 1);
    forall j, k | 0 <= j < k < |moved| ensures moved[j].1 < moved[k].0 {
      if j >= |Head(n)| {
        assert places[j - |Head(n)|].1 < places[k - |Head(n)|].0;
      }
    }
  }

  lemma CutTail(s: string, n: nat, tail: nat)
    requires n < |s| && (s[n] == '\r' || s[n] == '\n') && TailAt(s[n + 1..], tail)
    ensures TailAt(s, tail + n + 1) && s[tail + n + 1..] == s[n + 1..][tail..]
  {
    var t := s[n + 1..];
    assert forall i | tail + n + 1 <= i < |s| :: s[i] == t[i - n - 1];
  }

  lemma CutCovers(s: string, n: nat, places: seq<(nat, nat)>, tail: nat)
    requires n < |s| && (s[n] == '\r' || s[n] == '\n') && TailAt(s[n + 1..], tail) && Covers(s[n + 1..], places, tail)
    ensures tail + n + 1 <= |s| && Covers(s, Head(n) + Shifted(places, n + 1), tail + n + 1)
  {
    CutTail(s, n, tail);
    var t, moved := s[n + 1..], Head(n) + Shifted(places, n + 1);
    forall i | 0 <= i < |s| && s[i] != '\r' && s[i] != '\n'
      ensures InPiece(moved, i) <==> i < tail + n + 1 || s[tail + n + 1..] == "> "
    {
      ShiftedIn(places, n + 1, i);
      InEither(Head(n), Shifted(places, n + 1), i);
      InHead(n, i);
      if i > n {
        assert t[i - n - 1] == s[i];
      }
      hide InPiece, Head, Shifted;
    }
  }

  lemma InHead(n: nat, i: nat)
    ensures InPiece(Head(n), i) <==> i < n
  {
    if i < n {
      assert Head(n)[0].0 <= i < Head(n)[0].1;
    }
  }

  /** The first newline cuts off the first piece, if there is one. */
  lemma FirstCut(s: string, n: nat, pieces: seq<string>, places: seq<(nat, nat)>, tail: nat)
    requires n < |s| && (s[n] == '\r' || s[n] == '\n') && Between(s, 0, n)
    requires PiecesAre(s[n + 1..], pieces, places, tail)
    ensures PiecesAre(s, FirstPiece(s, n) + pieces, Head(n) + Shifted(places, n + 1), tail + n + 1)
  {
    hide PiecesAt, InOrder, TailAt, Covers, Head, FirstPiece, Shifted, Between;
    CutPieces(s, n, pieces, places);
    CutInOrder(n, places);
    CutTail(s, n, tail);
    CutCovers(s, n, places, tail);
  }

  lemma InEither(a: seq<(nat, nat)>, b: seq<(nat, nat)>, i: nat)
    ensures InPiece(a + b, i) <==> InPiece(a, i) || InPiece(b, i)
  {
    var c := a + b;
    if InPiece(c, i) {
      var k :| 0 <= k < |c| && c[k].0 <= i < c[k].1;
      assert k >= |a| ==> b[k - |a|].0 <= i < b[k - |a|].1;
    }
    if InPiece(a, i) {
      var k :| 0 <= k < |a| && a[k].0 <= i < a[k].1;
      assert c[k].0 <= i < c[k].1;
    }
    if InPiece(b, i) {
      var k :| 0 <= k < |b| && b[k].0 <= i < b[k].1;
      assert c[|a| + k].0 <= i < c[|a| + k].1;
    }
  }

  /** The pieces of a stream are its longest stretches without a carriage return and a line feed. So two
      characters are in the same line exactly if neither lies between them, and only the tail is dropped. */
  lemma {:induction false} PiecesAreStretches(s: string) returns (places: seq<(nat, nat)>, tail: nat)
    ensures PiecesAre(s, Split(s), places, tail)
    decreases |s|
  {
    hide *;
    SplitIs(s);
    match FirstNewline(s) {
      case None =>
        tail := 0;
        places := if s == "> " then [(0, 2)] else [];
        NoCut(s);
      case Some(n) =>
        places, tail := PiecesAreStretches(s[n + 1..]);
        FirstCut(s, n, Split(s[n + 1..]), places, tail);
        places, tail := Head(n) + Shifted(places, n + 1), tail + n + 1;
    }
  }

  lemma SplitIs(s: string)
    ensures match FirstNewline(s)
            case None => Between(s, 0, |s|) && Split(s) == if s == "> " then [s] else []
            case Some(n) =>
              && n < |s| && (s[n] == '\r' || s[n] == '\n') && Between(s, 0, n)
              && Split(s) == FirstPiece(s, n) + Split(s[n + 1..])
  {
    hide FirstNewline;
  }

  lemma NoCut(s: string)
    requires Between(s, 0, |s|)
    ensures PiecesAre(s, if s == "> " then [s] else [], if s == "> " then [(0, 2)] else [], 0)
  {
    if s == "> " {
      var places := [(0, 2)];
      assert s[0..2] == s && s[0..] == s;
      InHead(2, 0);
      InHead(2, 1);
      assert places == Head(2);
    }
  }

  // ----- and what is dropped

  /** The stream without the two characters. */
  function Stripped(s: string): string {
    if s == "" then ""
    else (if s[0] == '\r' || s[0] == '\n' then "" else [s[0]]) + Stripped(s[1..])
  }

  function Concat(lines: seq<string>): string {
    if lines == [] then "" else lines[0] + Concat(lines[1..])
  }

  /** The unfinished end of a stream, unless it is a prompt. */
  function Dropped(s: string): string {
    var t := AfterLast(s);
    if t == "> " then "" else t
  }

  /** What is behind the last of the two characters. */
  function AfterLast(s: string): string {
    if s == "" then ""
    else
      var c := s[|s| - 1];
      if c == '\r' || c == '\n' then "" else AfterLast(s[..|s| - 1]) + [c]
  }

  lemma {:induction false} StrippedPlain(s: string, rest: string)
    requires Between(s, 0, |s|)
    ensures Stripped(s + rest) == s + Stripped(rest) && AfterLast(s) == s
    decreases |s|
  {
    if s == "" {
      assert s + rest == rest;
    } else {
      assert (s + rest)[1..] == s[1..] + rest;
      StrippedPlain(s[1..], rest);
      StrippedInit(s, rest);
    }
  }

  lemma {:induction false} StrippedInit(s: string, rest: string)
    requires Between(s, 0, |s|)
    ensures AfterLast(s) == s
    decreases |s|
  {
    if s != "" {
      StrippedInit(s[..|s| - 1], rest);
    }
  }

  lemma {:induction false} AfterLastSkips(a: string, c: char, b: string)
    requires c == '\r' || c == '\n'
    ensures AfterLast(a + [c] + b) == AfterLast(b)
    decreases |b|
  {
    var s := a + [c] + b;
    if b == "" {
      assert s == a + [c];
    } else {
      assert s[..|s| - 1] == a + [c] + b[..|b| - 1] && s[|s| - 1] == b[|b| - 1];
      AfterLastSkips(a, c, b[..|b| - 1]);
    }
  }

  /** The lines one after the other, and the tail, are the stream without the two characters. */
  lemma {:induction false} OnlyNewlinesAreDropped(s: string)
    ensures Concat(Split(s)) + Dropped(s) == Stripped(s)
    decreases |s|
  {
    hide *;
    SplitIs(s);
    match FirstNewline(s) {
      case None =>
        StrippedPlain(s, "");
        WithoutNewlines(s);
      case Some(n) =>
        OnlyNewlinesAreDropped(s[n + 1..]);
        CutOff(s, n);
        StrippedPlain(s[..n], s[n..]);
        AfterLastSkips(s[..n], s[n], s[n + 1..]);
        ConcatIs(s[..n], Split(s[n + 1..]));
        PieceIs(s, n);
        TailIs(s);
        TailIs(s[n + 1..]);
        Associate(if n == 0 then "" else s[..n], Concat(Split(s[n + 1..])), Dropped(s[n + 1..]));
    }
  }

  lemma TailIs(s: string)
    ensures Dropped(s) == if AfterLast(s) == "> " then "" else AfterLast(s)
  {
  }

  lemma WithoutNewlines(s: string)
    requires AfterLast(s) == s
    ensures Stripped("") == "" && s + "" == s
    ensures Concat(if s == "> " then [s] else []) + Dropped(s) == s
  {
    assert Concat([s]) == s + Concat([s][1..]) == s + "" == s;
  }

  lemma CutOff(s: string, n: nat)
    requires n < |s| && (s[n] == '\r' || s[n] == '\n') && Between(s, 0, n)
    ensures s == s[..n] + s[n..] == s[..n] + [s[n]] + s[n + 1..]
    ensures Stripped(s[n..]) == Stripped(s[n + 1..]) && Between(s[..n], 0, |s[..n]|)
    ensures n == 0 ==> s[..n] == ""
  {
    assert s[n..][1..] == s[n + 1..];
  }

  lemma PieceIs(s: string, n: nat)
    requires n <= |s|
    ensures FirstPiece(s, n) == if n == 0 then [] else [s[..n]]
  {
  }

  lemma ConcatIs(line: string, lines: seq<string>)
    ensures Concat([line] + lines) == line + Concat(lines)
    ensures [] + lines == lines && "" + Concat(lines) == Concat(lines)
  {
    assert ([line] + lines)[1..] == lines;
  }

  /** So with the lines of a stream that fits and has no prompt that goes on, however it is read. */
  lemma LinesAreStretches(stream: string, sizes: seq<nat>) returns (places: seq<(nat, nat)>, tail: nat)
    requires NoPrompt(stream) && LinesFit(stream)
    ensures PiecesAre(stream, Lines("", stream, sizes), places, tail)
    ensures Concat(Lines("", stream, sizes)) + Dropped(stream) == Stripped(stream)
  {
    hide *;
    ChunkingDoesNotMatter(stream, sizes, sizes);
    OnlyNewlinesAreDropped(stream);
    places, tail := PiecesAreStretches(stream);
  }

  // ----- what the reader's loop hands on

  /** Nothing but the lines is handed on; those for `processLine` do not begin like an SMS notification, and the
      others do. */
  lemma {:induction false} HandedAreLines(lines: seq<string>)
    ensures forall h <- Grouped(lines) :: forall l <- h.Both() :: l in lines
    ensures forall h <- Grouped(lines) ::
              var l := h.Both()[0];
              h.Sms? <==> |l| >= 5 && l[..5] in ["+CMT:", "+CDS:", "+CBM:"]
    decreases |lines|
  {
    if lines == [] || (|lines| == 1 && IsSMSUnsolicited(lines[0])) {
      return;
    } else if IsSMSUnsolicited(lines[0]) {
      HandedAreLines(lines[2..]);
      BeginsLikeSms(lines[0]);
      assert forall l <- lines[2..] :: l in lines;
    } else {
      HandedAreLines(lines[1..]);
      BeginsLikeSms(lines[0]);
      assert forall l <- lines[1..] :: l in lines;
    }
  }

  lemma BeginsLikeSms(line: string)
    ensures IsSMSUnsolicited(line) <==> |line| >= 5 && line[..5] in ["+CMT:", "+CDS:", "+CBM:"]
  {
    PrefixOf("+CMT:", line);
    PrefixOf("+CDS:", line);
    PrefixOf("+CBM:", line);
  }

  lemma PrefixOf(p: string, s: string)
    ensures p <= s <==> |p| <= |s| && s[..|p|] == p
  {
  }

  lemma HandedAreClean(rest: string, incoming: string, sizes: seq<nat>)
    ensures forall h <- Grouped(Lines(rest, incoming, sizes)) ::
              forall l <- h.Both() :: l != "" && '\r' !in l && '\n' !in l
  {
    hide Lines, Grouped, Handed.Both;
    HandedAreLines(Lines(rest, incoming, sizes));
    LinesAreClean(rest, incoming, sizes);
  }
}
