/** Turning the byte stream of the modem into lines: `findNextEOL` and `readline`
    (mbm/mbm-ril/atchannel.c:439-604).

    First the lines as a function of the stream and of how it is cut into reads, then the method on the
    buffer. `sizes` says how many bytes are there to be read each time; a read takes at least one. */
module AtReadLine {
  import opened Basics

  const MAX_AT_RESPONSE: nat := 8 * 1024
  const NUL: char := '\0'

  predicate IsNewline(c: char) {
    c == '\r' || c == '\n'
  }

  /** Leading newlines skipped. */
  function Skip(s: string): (r: string)
    ensures r == s || (s != "" && IsNewline(s[0]) && |r| < |s|)
    ensures r == "" || !IsNewline(r[0])
  {
    if s != "" && IsNewline(s[0]) then Skip(s[1..]) else s
  }

  function FirstNewline(s: string): (r: Option<nat>)
    ensures r.Some? ==> r.value < |s| && IsNewline(s[r.value])
    ensures forall k | 0 <= k < (if r.Some? then r.value else |s|) :: !IsNewline(s[k])
  {
    if s == "" then None
    else if IsNewline(s[0]) then Some(0)
    else
      match FirstNewline(s[1..])
      case None => None
      case Some(n) => Some(n + 1)
  }

  /** Where the first line ends; a text that is just the SMS prompt counts as a line. */
  function Eol(s: string): (r: Option<nat>)
    ensures r.Some? ==> r.value <= |s|
  {
    if s == "> " then Some(2) else FirstNewline(s)
  }

  /** What follows a line ending at e. */
  function Rest(s: string, e: nat): string
    requires e <= |s|
  {
    if e < |s| then s[e + 1..] else ""
  }

  datatype Step = Step(line: Option<string>, rest: string, incoming: string, sizes: seq<nat>, lost: bool)

  /** There is a line in the buffer. */
  function Found(s: string, incoming: string, sizes: seq<nat>, lost: bool): Step
    requires Eol(s).Some?
  {
    var e := Eol(s).value;
    Step(Some(s[..e]), Rest(s, e), incoming, sizes, lost)
  }

  /** How many bytes a read returns. */
  function Count(used: nat, incoming: string, sizes: seq<nat>): (n: nat)
    requires used < MAX_AT_RESPONSE - 2 && incoming != ""
    ensures 1 <= n <= |incoming| && used + n <= MAX_AT_RESPONSE - 2
  {
    var want := if sizes == [] then |incoming| else if sizes[0] == 0 then 1 else sizes[0];
    var room := MAX_AT_RESPONSE - used - 2;
    var n := if want < room then want else room;
    if n < |incoming| then n else |incoming|
  }

  function Tail(sizes: seq<nat>): seq<nat> {
    if sizes == [] then [] else sizes[1..]
  }

  /** Reading until there is a line: `rest` is what is in the buffer and `used` how far the buffer is
      filled. A full buffer is ditched, which loses what is in it. */
  function Fill(rest: string, used: nat, incoming: string, sizes: seq<nat>, lost: bool): Step
    decreases |incoming|
  {
    if used >= MAX_AT_RESPONSE - 2 then Fetch("", 0, incoming, sizes, lost || rest != "")
    else Fetch(rest, used, incoming, sizes, lost)
  }

  function Fetch(rest: string, used: nat, incoming: string, sizes: seq<nat>, lost: bool): Step
    requires used < MAX_AT_RESPONSE - 2
    decreases |incoming|, 0
  {
    if incoming == "" then Step(None, rest, "", sizes, lost)
    else
      var n := Count(used, incoming, sizes);
      var s := Skip(rest + incoming[..n]);
      match Eol(s)
      case Some(_) => Found(s, incoming[n..], Tail(sizes), lost)
      case None => Fill(s, used + n, incoming[n..], Tail(sizes), lost)
  }

  /** One call of readline; no line means the end of the stream. */
  function NextLine(rest: string, incoming: string, sizes: seq<nat>): Step {
    var s := Skip(rest);
    match Eol(s)
    case Some(_) => Found(s, incoming, sizes, false)
    case None => Fill(s, |s|, incoming, sizes, false)
  }

  // ----- the lines of a stream

  /** The stream cut at newlines; empty pieces are dropped, and so is an unfinished last one unless it is
      just the SMS prompt. */
  function Split(s: string): seq<string>
    decreases |s|
  {
    match FirstNewline(s)
    case None => if s == "> " then [s] else []
    case Some(i) => (if i == 0 then [] else [s[..i]]) + Split(s[i + 1..])
  }

  /** A line that begins with the prompt and goes on. */
  predicate PromptAt(s: string, i: nat) {
    i + 2 < |s| && (i == 0 || IsNewline(s[i - 1])) && s[i] == '>' && s[i + 1] == ' ' && !IsNewline(s[i + 2])
  }

  /** No line does: the prompt only ever is a line of its own. */
  predicate NoPrompt(s: string) {
    forall i: nat | i < |s| :: !PromptAt(s, i)
  }

  lemma NoPromptAfter(s: string, n: nat)
    requires NoPrompt(s) && 0 < n <= |s| && IsNewline(s[n - 1])
    ensures NoPrompt(s[n..])
  {
    var t := s[n..];
    forall i: nat | i < |t| ensures !PromptAt(t, i) {
      assert !PromptAt(s, n + i);
    }
  }

  lemma {:induction false} SkipKeeps(s: string, more: string)
    requires NoPrompt(s + more)
    ensures NoPrompt(Skip(s) + more) && Split(Skip(s) + more) == Split(s + more)
    decreases |s|
  {
    if s != "" && IsNewline(s[0]) {
      assert (s + more)[1..] == s[1..] + more && (s + more)[0] == s[0];
      NoPromptAfter(s + more, 1);
      SkipKeeps(s[1..], more);
      assert FirstNewline(s + more) == Some(0);
    }
  }

  lemma FirstNewlineIs(s: string, i: nat)
    requires i < |s| && IsNewline(s[i]) && forall k | 0 <= k < i :: !IsNewline(s[k])
    ensures FirstNewline(s) == Some(i)
  {
  }

  /** The line found in the buffer is the first piece of the stream. */
  lemma LineIsFirstPiece(s: string, more: string)
    requires NoPrompt(s + more) && (s == "" || !IsNewline(s[0])) && Eol(s).Some?
    ensures var e := Eol(s).value;
            && 0 < e <= |s| && NoPrompt(Rest(s, e) + more) && Split(s + more) == [s[..e]] + Split(Rest(s, e) + more)
  {
    if s == "> " {
      PromptIsFirstPiece(more);
      assert s[..2] == s && "" + more == more;
    } else {
      NewlineEndsFirstPiece(s, more);
    }
    hide Split, NoPrompt, FirstNewline;
  }

  lemma PromptIsFirstPiece(more: string)
    requires NoPrompt("> " + more)
    ensures NoPrompt(more) && Split("> " + more) == ["> "] + Split(more)
  {
    var t := "> " + more;
    forall i: nat | i < |more| ensures !PromptAt(more, i) {
      assert !PromptAt(t, 0) && !PromptAt(t, i + 2);
    }
    if more == "" {
      assert t == "> ";
    } else {
      assert !PromptAt(t, 0);
      FirstNewlineIs(t, 2);
      assert t[..2] == "> " && t[3..] == more[1..];
    }
  }

  lemma NewlineEndsFirstPiece(s: string, more: string)
    requires NoPrompt(s + more) && (s == "" || !IsNewline(s[0])) && s != "> " && FirstNewline(s).Some?
    ensures var e := FirstNewline(s).value;
            && 0 < e < |s| && NoPrompt(s[e + 1..] + more) && Split(s + more) == [s[..e]] + Split(s[e + 1..] + more)
  {
    var t := s + more;
    var e := FirstNewline(s).value;
    assert forall k | 0 <= k <= e :: t[k] == s[k];
    FirstNewlineIs(t, e);
    NoPromptAfter(t, e + 1);
    assert t[..e] == s[..e] && t[e + 1..] == s[e + 1..] + more;
  }

  /** What the first piece of a stream is to a result. */
  predicate Delivers(s: string, r: Step) {
    if r.line.None? then Split(s) == []
    else
      && NoPrompt(r.rest + r.incoming) && Split(s) == [r.line.value] + Split(r.rest + r.incoming)
      && |r.rest| + |r.incoming| < |s|
  }

  lemma {:induction false} FillGivesFirstPiece(rest: string, used: nat, incoming: string, sizes: seq<nat>)
    requires NoPrompt(rest + incoming) && !Fill(rest, used, incoming, sizes, false).lost
    requires Eol(rest) == None
    ensures Delivers(rest + incoming, Fill(rest, used, incoming, sizes, false))
    decreases |incoming|
  {
    hide *;
    FillUnfolds(rest, used, incoming, sizes, false);
    var u := if used >= MAX_AT_RESPONSE - 2 then 0 else used;
    if used >= MAX_AT_RESPONSE - 2 && rest != "" {
      LostStays("", 0, incoming, sizes);
    } else if incoming == "" {
      NothingComes(rest, incoming, Fill(rest, used, incoming, sizes, false));
    } else {
      var n := Count(u, incoming, sizes);
      var t, more := rest + incoming[..n], incoming[n..];
      assert rest + incoming == t + more;
      SkipKeeps(t, more);
      if Eol(Skip(t)).Some? {
        FoundLine(t, more, Tail(sizes));
      } else {
        FillGivesFirstPiece(Skip(t), u + n, more, Tail(sizes));
        SkippedDelivers(t, more, Fill(Skip(t), u + n, more, Tail(sizes), false));
      }
    }
  }

  lemma FillUnfolds(rest: string, used: nat, incoming: string, sizes: seq<nat>, lost: bool)
    ensures MAX_AT_RESPONSE == 8192
    ensures var r := Fill(rest, used, incoming, sizes, lost);
            if used >= MAX_AT_RESPONSE - 2 then
              r == Fill("", 0, incoming, sizes, lost || rest != "")
            else if incoming == "" then r == Step(None, rest, "", sizes, lost)
            else
              var n := Count(used, incoming, sizes);
              var s := Skip(rest + incoming[..n]);
              if Eol(s).Some? then r == Found(s, incoming[n..], Tail(sizes), lost)
              else r == Fill(s, used + n, incoming[n..], Tail(sizes), lost)
    ensures used >= MAX_AT_RESPONSE - 2 && incoming != "" ==>
              var n := Count(0, incoming, sizes);
              var s := Skip("" + incoming[..n]);
              Fill(rest, used, incoming, sizes, lost) ==
                if Eol(s).Some? then Found(s, incoming[n..], Tail(sizes), lost || rest != "")
                else Fill(s, n, incoming[n..], Tail(sizes), lost || rest != "")
    ensures used >= MAX_AT_RESPONSE - 2 && incoming == "" ==>
      Fill(rest, used, incoming, sizes, lost) == Step(None, "", "", sizes, lost || rest != "")
  {
    hide Skip, Eol, Count, Rest, Tail;
  }

  lemma NothingComes(rest: string, incoming: string, r: Step)
    requires incoming == "" && Eol(rest) == None && r.line == None
    ensures Delivers(rest + incoming, r)
  {
    assert rest + incoming == rest;
  }

  lemma FoundLine(t: string, more: string, sizes: seq<nat>)
    requires Eol(Skip(t)).Some? && NoPrompt(Skip(t) + more) && Split(Skip(t) + more) == Split(t + more)
    ensures Delivers(t + more, Found(Skip(t), more, sizes, false))
  {
    hide Skip, Eol, NoPrompt, Split;
    LineIsFirstPiece(Skip(t), more);
  }

  lemma SkippedDelivers(t: string, more: string, r: Step)
    requires Delivers(Skip(t) + more, r) && Split(Skip(t) + more) == Split(t + more)
    ensures Delivers(t + more, r)
  {
    hide Skip, NoPrompt, Split;
  }

  lemma {:induction false} LostStays(rest: string, used: nat, incoming: string, sizes: seq<nat>)
    ensures Fill(rest, used, incoming, sizes, true).lost
    decreases |incoming|
  {
    var r, u := if used >= MAX_AT_RESPONSE - 2 then "" else rest, if used >= MAX_AT_RESPONSE - 2 then 0 else used;
    if incoming != "" {
      var n := Count(u, incoming, sizes);
      LostStays(Skip(r + incoming[..n]), u + n, incoming[n..], Tail(sizes));
    }
  }

  lemma NextGivesFirstPiece(rest: string, incoming: string, sizes: seq<nat>)
    requires NoPrompt(rest + incoming) && !NextLine(rest, incoming, sizes).lost
    ensures Delivers(rest + incoming, NextLine(rest, incoming, sizes))
  {
    hide Skip, Eol, Fill, Split, NoPrompt, Delivers;
    SkipKeeps(rest, incoming);
    var s := Skip(rest);
    if Eol(s).Some? {
      FoundLine(rest, incoming, sizes);
    } else {
      FillGivesFirstPiece(s, |s|, incoming, sizes);
      SkippedDelivers(rest, incoming, Fill(s, |s|, incoming, sizes, false));
    }
  }

  lemma {:induction false} FillConsumes(rest: string, used: nat, incoming: string, sizes: seq<nat>, lost: bool)
    requires Eol(rest) == None && (rest == "" || !IsNewline(rest[0]))
    ensures var r := Fill(rest, used, incoming, sizes, lost);
            r.line.Some? ==> |r.rest| + |r.incoming| < |rest| + |incoming|
    decreases |incoming|
  {
    var t, u := if used >= MAX_AT_RESPONSE - 2 then "" else rest, if used >= MAX_AT_RESPONSE - 2 then 0 else used;
    var l := lost || (used >= MAX_AT_RESPONSE - 2 && rest != "");
    if incoming != "" {
      var n := Count(u, incoming, sizes);
      var s := Skip(t + incoming[..n]);
      if Eol(s).None? {
        FillConsumes(s, u + n, incoming[n..], Tail(sizes), l);
      }
    }
  }

  lemma NextConsumes(rest: string, incoming: string, sizes: seq<nat>)
    ensures var r := NextLine(rest, incoming, sizes);
            r.line.Some? ==> |r.rest| + |r.incoming| < |rest| + |incoming|
  {
    var s := Skip(rest);
    if Eol(s).None? {
      FillConsumes(s, |s|, incoming, sizes, false);
    }
  }

  /** All lines that calls of readline return until the end of the stream. */
  function Lines(rest: string, incoming: string, sizes: seq<nat>): seq<string>
    decreases |rest| + |incoming|
  {
    var r := NextLine(rest, incoming, sizes);
    NextConsumes(rest, incoming, sizes);
    if r.line.None? then [] else [r.line.value] + Lines(r.rest, r.incoming, r.sizes)
  }

  /** Some call on the way ditches a buffer with data in it. */
  predicate Loses(rest: string, incoming: string, sizes: seq<nat>)
    decreases |rest| + |incoming|
  {
    var r := NextLine(rest, incoming, sizes);
    NextConsumes(rest, incoming, sizes);
    r.lost || (r.line.Some? && Loses(r.rest, r.incoming, r.sizes))
  }

  /** If no line begins with the prompt and nothing is ditched, the lines are the pieces of the stream. */
  lemma {:induction false} LinesAreThePieces(rest: string, incoming: string, sizes: seq<nat>)
    requires NoPrompt(rest + incoming) && !Loses(rest, incoming, sizes)
    ensures Lines(rest, incoming, sizes) == Split(rest + incoming)
    decreases |rest| + |incoming|
  {
    hide NextLine, Split, NoPrompt;
    var r := NextLine(rest, incoming, sizes);
    NextGivesFirstPiece(rest, incoming, sizes);
    NextConsumes(rest, incoming, sizes);
    if r.line.Some? {
      LinesAreThePieces(r.rest, r.incoming, r.sizes);
    }
  }

  // ----- when nothing is ditched

  /** A call may begin here with an empty buffer: at the beginning of the stream, behind a newline, or behind a
      prompt at such a place. */
  predicate Start(s: string, i: nat)
    decreases i
  {
    i <= |s|
    && (i == 0 || IsNewline(s[i - 1]) || (i >= 2 && s[i - 2] == '>' && s[i - 1] == ' ' && Start(s, i - 2)))
  }

  /** Newlines, then part of a line. */
  predicate Partial(t: string) {
    Skip(t) != "" && Eol(Skip(t)) == None
  }

  /** Every line fits in the buffer, together with the newlines before it, but for the one that ends the line
      before. */
  ghost predicate LinesFit(s: string) {
    forall i, j | 0 <= i <= j <= |s| && Start(s, i) && Partial(s[i..j]) :: j - i < MAX_AT_RESPONSE - 2
  }

  lemma {:induction false} StartShifts(s: string, n: nat, i: nat)
    requires Start(s, n) && Start(s[n..], i)
    ensures Start(s, n + i)
    decreases i
  {
    if i >= 2 && !IsNewline(s[n..][i - 1]) {
      StartShifts(s, n, i - 2);
    }
  }

  lemma StartAfter(s: string, n: nat)
    requires n <= |s| && (n > 0 ==> IsNewline(s[n - 1]))
    ensures Start(s, n)
  {
  }

  lemma SuffixFits(s: string, n: nat)
    requires LinesFit(s) && Start(s, n)
    ensures LinesFit(s[n..])
  {
    hide Partial, Start;
    StartInside(s, n);
    var t := s[n..];
    forall i, j | 0 <= i <= j <= |t| && Start(t, i) && Partial(t[i..j]) ensures j - i < MAX_AT_RESPONSE - 2 {
      StartShifts(s, n, i);
      assert t[i..j] == s[n + i..n + j];
    }
  }

  lemma StartInside(s: string, n: nat)
    requires Start(s, n)
    ensures n <= |s|
  {
  }

  /** What has been skipped in the buffer. */
  lemma {:induction false} SkipSplits(s: string) returns (dead: string)
    ensures s == dead + Skip(s) && Newlines(dead)
    decreases |s|
  {
    dead := "";
    if s != "" && IsNewline(s[0]) {
      var d := SkipSplits(s[1..]);
      dead := [s[0]] + d;
    }
  }

  lemma NoLineYet(dead: string, rest: string, incoming: string)
    requires LinesFit(dead + rest + incoming) && Newlines(dead)
    requires rest != "" && !IsNewline(rest[0]) && Eol(rest) == None
    ensures |dead| + |rest| < MAX_AT_RESPONSE - 2
  {
    var t := dead + rest;
    assert t == (t + incoming)[0..|t|];
    DeadIsSkipped(dead, rest);
    assert Partial(t);
    assert Start(t + incoming, 0);
  }

  lemma {:induction false} DeadIsSkipped(dead: string, rest: string)
    requires Newlines(dead) && (rest == "" || !IsNewline(rest[0]))
    ensures Skip(dead + rest) == rest
    decreases |dead|
  {
    if dead == "" {
      assert dead + rest == rest;
    } else {
      assert (dead + rest)[1..] == dead[1..] + rest;
      DeadIsSkipped(dead[1..], rest);
    }
  }

  predicate Newlines(s: string) {
    forall k | 0 <= k < |s| :: IsNewline(s[k])
  }

  /** Nothing is lost, and what is left still fits. */
  ghost predicate KeepsAll(r: Step) {
    !r.lost && LinesFit(r.rest + r.incoming)
  }

  lemma {:induction false} FillLosesNothing(dead: string, rest: string, incoming: string, sizes: seq<nat>)
    requires LinesFit(dead + rest + incoming) && Newlines(dead)
    requires Eol(rest) == None && (rest == "" || !IsNewline(rest[0]))
    ensures KeepsAll(Fill(rest, |dead| + |rest|, incoming, sizes, false))
    decreases |incoming|
  {
    hide *;
    var used := |dead| + |rest|;
    FillUnfolds(rest, used, incoming, sizes, false);
    if rest != "" {
      NoLineYet(dead, rest, incoming);
    }
    var d := if used >= MAX_AT_RESPONSE - 2 then "" else dead;
    DropDead(dead, d, rest, incoming);
    if incoming == "" {
      NothingLost(rest, incoming, sizes);
    } else {
      var n := Count(|d| + |rest|, incoming, sizes);
      var s := Skip(rest + incoming[..n]);
      var more := SkipSplits(rest + incoming[..n]);
      Regroup(d, rest, incoming, n, more, s);
      StillDead(d, more);
      if Eol(s).Some? {
        FoundKeepsAll(d + more, s, incoming[n..], Tail(sizes));
      } else {
        var d' := d + more;
        assert |d'| + |s| == |d| + |rest| + n;
        SkipStarts(rest + incoming[..n]);
        FillLosesNothing(d', s, incoming[n..], Tail(sizes));
      }
    }
  }

  lemma StillDead(a: string, b: string)
    requires Newlines(a) && Newlines(b)
    ensures Newlines(a + b)
  {
  }

  lemma SkipStarts(s: string)
    ensures Skip(s) == "" || !IsNewline(Skip(s)[0])
  {
  }

  lemma DropDead(dead: string, d: string, rest: string, incoming: string)
    requires LinesFit(dead + rest + incoming) && (d == dead || d == "") && Newlines(dead)
    ensures LinesFit(d + rest + incoming) && LinesFit(rest + incoming) && Newlines(d)
  {
    hide LinesFit;
    var s := dead + rest + incoming;
    assert s[|dead|..] == rest + incoming == "" + rest + incoming;
    assert dead != "" ==> s[|dead| - 1] == dead[|dead| - 1];
    StartAfter(s, |dead|);
    SuffixFits(s, |dead|);
  }

  lemma NothingLost(rest: string, incoming: string, sizes: seq<nat>)
    requires incoming == "" && LinesFit(rest + incoming)
    ensures KeepsAll(Step(None, rest, "", sizes, false))
  {
    hide LinesFit;
  }

  lemma Regroup(d: string, rest: string, incoming: string, n: nat, more: string, s: string)
    requires n <= |incoming| && rest + incoming[..n] == more + s
    ensures d + rest + incoming == d + more + s + incoming[n..]
  {
    assert incoming == incoming[..n] + incoming[n..];
    Associate(rest, incoming[..n], incoming[n..]);
    Associate(d, rest, incoming);
    Associate(d, more + s, incoming[n..]);
    Associate(d, more, s);
  }

  lemma FoundKeepsAll(dead: string, s: string, incoming: string, sizes: seq<nat>)
    requires LinesFit(dead + s + incoming) && Newlines(dead) && Eol(s).Some?
    ensures KeepsAll(Found(s, incoming, sizes, false))
  {
    hide LinesFit, Eol;
    var x, e := dead + s + incoming, Eol(s).value;
    EolInside(s);
    var k := if e < |s| then e + 1 else e;
    assert x[|dead| + k..] == Rest(s, e) + incoming;
    StartAfterLine(dead, s, incoming);
    SuffixFits(x, |dead| + k);
  }

  /** Behind a line that has been found, another call may begin. */
  lemma StartAfterLine(dead: string, s: string, incoming: string)
    requires Newlines(dead) && Eol(s).Some?
    ensures var e := Eol(s).value; Start(dead + s + incoming, |dead| + if e < |s| then e + 1 else e)
  {
    var x, e := dead + s + incoming, Eol(s).value;
    if s == "> " {
      assert dead != "" ==> x[|dead| - 1] == dead[|dead| - 1];
      StartAfter(x, |dead|);
      assert x[|dead|] == '>' && x[|dead| + 1] == ' ';
    } else {
      assert x[|dead| + e] == s[e];
      StartAfter(x, |dead| + e + 1);
    }
  }

  lemma EolInside(s: string)
    ensures Eol(s).Some? ==> Eol(s).value <= |s|
  {
  }

  lemma NextLosesNothing(rest: string, incoming: string, sizes: seq<nat>)
    requires LinesFit(rest + incoming)
    ensures KeepsAll(NextLine(rest, incoming, sizes))
  {
    hide *;
    NextUnfolds(rest, incoming, sizes);
    var s := Skip(rest);
    var dead := SkipSplits(rest);
    SkipStarts(rest);
    if Eol(s).Some? {
      FoundKeepsAll(dead, s, incoming, sizes);
    } else {
      DropDead(dead, "", s, incoming);
      FillLosesNothing("", s, incoming, sizes);
    }
  }

  lemma NextUnfolds(rest: string, incoming: string, sizes: seq<nat>)
    ensures var s := Skip(rest);
            NextLine(rest, incoming, sizes)
            == if Eol(s).Some? then Found(s, incoming, sizes, false) else Fill(s, |s|, incoming, sizes, false)
  {
    hide Skip, Eol, Fill, Found;
  }

  lemma {:induction false} ShortLinesAreNotLost(rest: string, incoming: string, sizes: seq<nat>)
    requires LinesFit(rest + incoming)
    ensures !Loses(rest, incoming, sizes)
    decreases |rest| + |incoming|
  {
    hide NextLine, LinesFit;
    var r := NextLine(rest, incoming, sizes);
    NextConsumes(rest, incoming, sizes);
    NextLosesNothing(rest, incoming, sizes);
    if r.line.Some? {
      ShortLinesAreNotLost(r.rest, r.incoming, r.sizes);
    }
  }

  /** If no line begins with the prompt and goes on, and the lines fit, the framing does not depend on how the
      stream is cut into reads: the lines are the stream's pieces. */
  lemma ChunkingDoesNotMatter(stream: string, sizes: seq<nat>, other: seq<nat>)
    requires NoPrompt(stream) && LinesFit(stream)
    ensures Lines("", stream, sizes) == Lines("", stream, other) == Split(stream)
  {
    assert "" + stream == stream;
    ShortLinesAreNotLost("", stream, sizes);
    ShortLinesAreNotLost("", stream, other);
    LinesAreThePieces("", stream, sizes);
    LinesAreThePieces("", stream, other);
  }

  // ----- and when it does

  /** The lines from the middle of a call on. */
  function LinesFrom(rest: string, used: nat, incoming: string, sizes: seq<nat>): seq<string> {
    var r := Fill(rest, used, incoming, sizes, false);
    if r.line.None? then [] else [r.line.value] + Lines(r.rest, r.incoming, r.sizes)
  }

  lemma LinesOfEmptyBuffer(incoming: string, sizes: seq<nat>)
    ensures Lines("", incoming, sizes) == LinesFrom("", 0, incoming, sizes)
  {
    NextUnfolds("", incoming, sizes);
    NothingInBuffer();
    hide NextLine, Fill;
  }

  lemma NothingInBuffer()
    ensures Skip("") == "" && Eol("") == None && Newlines("")
  {
  }

  /** One byte is read, and there is room for it. */
  lemma OneByte(dead: string, rest: string, c: char, more: string, tail: seq<nat>) returns (d: string)
    requires LinesFit(dead + rest + ([c] + more)) && Newlines(dead) && Eol(rest) == None
    requires (rest == "" || !IsNewline(rest[0]))
    ensures d == if |dead| + |rest| >= MAX_AT_RESPONSE - 2 then "" else dead
    ensures d == dead || rest == ""
    ensures LinesFit(d + rest + ([c] + more)) && |d| + |rest| < MAX_AT_RESPONSE - 2
    ensures var s := Skip(rest + [c]);
            Fill(rest, |dead| + |rest|, [c] + more, [1] + tail, false)
            == if Eol(s).Some? then Found(s, more, tail, false) else Fill(s, |d| + |rest| + 1, more, tail, false)
  {
    hide *;
    var used, incoming, sizes := |dead| + |rest|, [c] + more, [1] + tail;
    FillUnfolds(rest, used, incoming, sizes, false);
    if rest != "" {
      NoLineYet(dead, rest, incoming);
    }
    d := if used >= MAX_AT_RESPONSE - 2 then "" else dead;
    DropDead(dead, d, rest, incoming);
    CountOne(|d| + |rest|, incoming, tail);
    assert incoming[..1] == [c] && incoming[1..] == more;
    assert used >= MAX_AT_RESPONSE - 2 ==> rest == "" && "" + [c] == [c];
  }

  lemma CountOne(used: nat, incoming: string, tail: seq<nat>)
    requires used < MAX_AT_RESPONSE - 2 && incoming != ""
    ensures Count(used, incoming, [1] + tail) == 1 && Tail([1] + tail) == tail
  {
  }

  function Ones(n: nat): seq<nat> {
    seq(n, _ => 1)
  }

  /** Reading whole lines byte by byte leaves an empty buffer in the middle of a call; the lines so far do not
      depend on what follows nor on how it is read. */
  lemma {:induction false} BytewiseThrough(dead: string, rest: string, p: string, q: string, a: seq<nat>, b: seq<nat>)
    returns (lines: seq<string>, d: string)
    requires LinesFit(dead + rest + (p + q)) && Newlines(dead) && Eol(rest) == None
    requires (rest == "" || !IsNewline(rest[0]))
    requires if p == "" then rest == "" else IsNewline(p[|p| - 1])
    ensures Newlines(d) && LinesFit(d + q)
    ensures LinesFrom(rest, |dead| + |rest|, p + q, Ones(|p|) + a) == lines + LinesFrom("", |d|, q, a)
    ensures LinesFrom(rest, |dead| + |rest|, p + q, Ones(|p|) + b) == lines + LinesFrom("", |d|, q, b)
    decreases |p|
  {
    hide *;
    NothingInBuffer();
    if p == "" {
      lines, d := [], dead;
      assert p + q == q && dead + rest + (p + q) == dead + q;
      NoOnes(a);
      NoOnes(b);
      assert forall l: seq<string> :: [] + l == l;
    } else {
      var c, p1 := p[0], p[1..];
      var more := p1 + q;
      assert p + q == [c] + more;
      OnesCons(|p|, a);
      OnesCons(|p|, b);
      var ta, tb := Ones(|p1|) + a, Ones(|p1|) + b;
      d := OneByte(dead, rest, c, more, ta);
      var d' := OneByte(dead, rest, c, more, tb);
      ByteCases(rest, c);
      ByteLeaves(d, rest, c, more);
      SkipStarts(rest + [c]);
      assert p[|p| - 1] == if p1 == "" then c else p1[|p1| - 1];
      var used, s := |dead| + |rest|, Skip(rest + [c]);
      if Eol(s).Some? {
        FoundThen(rest, used, [c] + more, [1] + ta, s, more, ta);
        FoundThen(rest, used, [c] + more, [1] + tb, s, more, tb);
        lines, d := BytewiseThrough("", "", p1, q, a, b);
        Associate([s[..Eol(s).value]], lines, LinesFrom("", |d|, q, a));
        Associate([s[..Eol(s).value]], lines, LinesFrom("", |d|, q, b));
        lines := [s[..Eol(s).value]] + lines;
      } else {
        var d1 := if s == "" then d + [c] else d;
        GoOn(rest, used, [c] + more, [1] + ta, s, |d| + |rest| + 1, more, ta);
        GoOn(rest, used, [c] + more, [1] + tb, s, |d| + |rest| + 1, more, tb);
        lines, d := BytewiseThrough(d1, s, p1, q, a, b);
      }
    }
  }

  lemma NoOnes(a: seq<nat>)
    ensures Ones(0) + a == a
  {
  }

  lemma OnesCons(n: nat, a: seq<nat>)
    requires n > 0
    ensures Ones(n) + a == [1] + (Ones(n - 1) + a)
  {
  }

  /** What is known of the buffer after one more byte. */
  lemma ByteLeaves(d: string, rest: string, c: char, more: string)
    requires LinesFit(d + rest + ([c] + more)) && Newlines(d) && (rest == "" || !IsNewline(rest[0]))
    ensures Eol(Skip(rest + [c])).Some? && Eol(rest) == None ==> LinesFit("" + "" + more)
    ensures IsNewline(c) && rest == "" ==> Newlines(d + [c]) && LinesFit(d + [c] + "" + more)
    ensures LinesFit(d + (rest + [c]) + more)
  {
    hide LinesFit, Skip, Eol;
    var t := rest + [c];
    assert d + rest + ([c] + more) == d + t + more;
    assert rest == "" ==> d + [c] + "" + more == d + t + more;
    assert "" + "" + more == more;
    if Eol(Skip(t)).Some? && Eol(rest) == None {
      ByteCases(rest, c);
      LineLeaves(d, t, more);
    }
  }

  lemma LineLeaves(d: string, t: string, more: string)
    requires LinesFit(d + t + more) && Newlines(d) && Eol(t).Some? && Eol(t).value + 1 >= |t|
    ensures LinesFit(more)
  {
    hide LinesFit, Newlines, Start;
    EolInside(t);
    StartAfterLine(d, t, more);
    assert (d + t + more)[|d| + |t|..] == more;
    SuffixFits(d + t + more, |d| + |t|);
    hide Eol;
  }

  lemma FoundThen(rest: string, used: nat, incoming: string, sizes: seq<nat>, s: string, more: string, tail: seq<nat>)
    requires Eol(s).Some? && Fill(rest, used, incoming, sizes, false) == Found(s, more, tail, false)
    requires Eol(s).value + 1 >= |s|
    ensures LinesFrom(rest, used, incoming, sizes) == [s[..Eol(s).value]] + LinesFrom("", 0, more, tail)
  {
    FoundIs(s, Eol(s).value, more, tail, false);
    LinesOfEmptyBuffer(more, tail);
    hide Fill, Eol, Lines;
  }

  lemma GoOn(rest: string, used: nat, incoming: string, sizes: seq<nat>, s: string, u: nat, more: string,
      tail: seq<nat>)
    requires Fill(rest, used, incoming, sizes, false) == Fill(s, u, more, tail, false)
    ensures LinesFrom(rest, used, incoming, sizes) == LinesFrom(s, u, more, tail)
  {
    hide Fill, Lines;
  }

  /** What a byte makes of a line that is not complete. */
  lemma ByteCases(rest: string, c: char)
    requires Eol(rest) == None && (rest == "" || !IsNewline(rest[0]))
    ensures IsNewline(c) && rest == "" ==> Skip(rest + [c]) == "" && Eol("") == None
    ensures IsNewline(c) && rest != "" ==> Skip(rest + [c]) == rest + [c] && Eol(rest + [c]) == Some(|rest|)
    ensures !IsNewline(c) ==> Skip(rest + [c]) == rest + [c]
    ensures !IsNewline(c) ==> Eol(rest + [c]) == if rest + [c] == "> " then Some(2) else None
  {
    var s := rest + [c];
    assert s[0] == if rest == "" then c else rest[0];
    NothingSkipped(s);
    NothingInBuffer();
    if IsNewline(c) {
      if rest == "" {
        assert s == [c];
        OneNewlineSkipped(c);
      } else {
        FirstNewlineIs(s, |rest|);
        assert s[|rest|] == c;
      }
    } else {
      NoNewlineIn(s);
    }
    hide Skip, FirstNewline;
  }

  lemma OneNewlineSkipped(c: char)
    requires IsNewline(c)
    ensures Skip([c]) == ""
  {
    assert [c][1..] == "";
  }

  lemma NoNewlineIn(s: string)
    requires forall k | 0 <= k < |s| :: !IsNewline(s[k])
    ensures FirstNewline(s) == None
  {
  }

  /** A line read in a call begins with what was in the buffer before. */
  lemma {:induction false} LineExtends(rest: string, used: nat, incoming: string, sizes: seq<nat>)
    requires rest != "" && Eol(rest) == None && !IsNewline(rest[0]) && !Fill(rest, used, incoming, sizes, false).lost
    ensures var r := Fill(rest, used, incoming, sizes, false);
            r.line.Some? ==> rest <= r.line.value
    decreases |incoming|
  {
    hide *;
    FillUnfolds(rest, used, incoming, sizes, false);
    if used >= MAX_AT_RESPONSE - 2 {
      LostStays("", 0, incoming, sizes);
    } else if incoming != "" {
      var n := Count(used, incoming, sizes);
      var t := rest + incoming[..n];
      NothingSkipped(t);
      LineIn(rest, t, incoming[n..], Tail(sizes));
      if Eol(t).None? {
        LineExtends(t, used + n, incoming[n..], Tail(sizes));
      }
    }
  }

  lemma NothingSkipped(s: string)
    ensures s == "" || !IsNewline(s[0]) ==> Skip(s) == s
  {
  }

  lemma LineIn(rest: string, t: string, more: string, sizes: seq<nat>)
    requires rest <= t && Eol(rest) == None && rest != ""
    ensures Eol(t).Some? ==> Found(t, more, sizes, false).line.Some? && rest <= Found(t, more, sizes, false).line.value
  {
    assert forall k | 0 <= k < |rest| :: t[k] == rest[k];
    hide Skip, Rest;
  }

  /** At a line that begins with the prompt and goes on: reading it byte by byte cuts the prompt off, reading
      three bytes at once does not. */
  lemma PromptCutOff(dead: string, q: string)
    requires Newlines(dead) && LinesFit(dead + q) && PromptAt(q, 0)
    ensures LinesFrom("", |dead|, q, [1, 1]) != LinesFrom("", |dead|, q, [3])
  {
    hide *;
    NothingInBuffer();
    PromptParts(q);
    var x, more := q[2], q[3..];
    assert q == ['>'] + ([' '] + q[2..]) && dead + "" + q == dead + q;
    var d := OneByte(dead, "", '>', [' '] + q[2..], [1]);
    assert [1, 1] == [1] + [1] && [1] == [1] + [];
    ByteCases("", '>');
    assert "" + ['>'] == ">" && ">" + [' '] == "> ";
    NotNewlines();
    ByteLeaves(d, "", '>', [' '] + q[2..]);
    var e := OneByte(d, ">", ' ', q[2..], []);
    ByteCases(">", ' ');
    GoOn("", |dead|, q, [1, 1], ">", |d| + 1, [' '] + q[2..], [1]);
    FoundThen(">", |d| + 1, [' '] + q[2..], [1], "> ", q[2..], []);
    ThreeBytes(dead, q);
  }

  lemma NotNewlines()
    ensures !IsNewline('>') && !IsNewline(' ')
  {
  }

  lemma PromptParts(q: string)
    requires PromptAt(q, 0)
    ensures |q| > 2 && q[0] == '>' && q[1] == ' ' && !IsNewline(q[2])
  {
  }

  /** Three bytes at once. */
  lemma ThreeBytes(dead: string, q: string)
    requires Newlines(dead) && LinesFit(dead + q) && PromptAt(q, 0)
    ensures var l := LinesFrom("", |dead|, q, [3]); l == [] || |l[0]| >= 3
  {
    hide *;
    PromptParts(q);
    NotNewlines();
    var s, more := q[..3], q[3..];
    ThreeAreNoLine(s);
    assert dead + s + more == dead + q;
    NoLineYet(dead, s, more);
    FillUnfolds("", |dead|, q, [3], false);
    CountThree(|dead|, q);
    assert "" + s == s;
    NothingSkipped(s);
    FillLosesNothing(dead, s, more, []);
    KeptIsNotLost(Fill(s, |dead| + 3, more, [], false));
    LineExtends(s, |dead| + 3, more, []);
    GoOn("", |dead|, q, [3], s, |dead| + 3, more, []);
    LinesFromIs(s, |dead| + 3, more, []);
  }

  lemma ThreeAreNoLine(s: string)
    requires |s| == 3 && !IsNewline(s[0]) && !IsNewline(s[1]) && !IsNewline(s[2])
    ensures Eol(s) == None
  {
    NoNewlineIn(s);
  }

  lemma CountThree(used: nat, incoming: string)
    requires used + 3 <= MAX_AT_RESPONSE - 2 && |incoming| >= 3
    ensures Count(used, incoming, [3]) == 3 && Tail([3]) == []
  {
  }

  lemma KeptIsNotLost(r: Step)
    requires KeepsAll(r)
    ensures !r.lost
  {
    hide LinesFit;
  }

  lemma LinesFromIs(rest: string, used: nat, incoming: string, sizes: seq<nat>)
    ensures var r := Fill(rest, used, incoming, sizes, false);
            if r.line.None? then LinesFrom(rest, used, incoming, sizes) == []
            else
              && LinesFrom(rest, used, incoming, sizes) != []
              && LinesFrom(rest, used, incoming, sizes)[0] == r.line.value
  {
    hide Fill, Lines;
  }

  /** The framing of a stream whose lines fit does not depend on how it is cut into reads if and only if no line
      begins with the prompt and goes on. */
  lemma ChunkingMattersExactlyForPrompts(stream: string)
    requires LinesFit(stream)
    ensures NoPrompt(stream) <==> forall a: seq<nat>, b: seq<nat> :: Lines("", stream, a) == Lines("", stream, b)
  {
    hide *;
    if NoPrompt(stream) {
      forall a: seq<nat>, b: seq<nat> ensures Lines("", stream, a) == Lines("", stream, b) {
        ChunkingDoesNotMatter(stream, a, b);
      }
    } else {
      var i := APrompt(stream);
      var p, q := stream[..i], stream[i..];
      assert stream == p + q && "" + "" + (p + q) == p + q;
      NothingInBuffer();
      PromptInside(stream, i);
      var lines, d := BytewiseThrough("", "", p, q, [1, 1], [3]);
      PromptCutOff(d, q);
      LinesOfEmptyBuffer(stream, Ones(i) + [1, 1]);
      LinesOfEmptyBuffer(stream, Ones(i) + [3]);
      SameEnds(lines, LinesFrom("", |d|, q, [1, 1]), LinesFrom("", |d|, q, [3]));
      assert Lines("", stream, Ones(i) + [1, 1]) != Lines("", stream, Ones(i) + [3]);
    }
  }

  lemma APrompt(s: string) returns (i: nat)
    requires !NoPrompt(s)
    ensures i < |s| && PromptAt(s, i)
  {
    i :| i < |s| && PromptAt(s, i);
  }

  lemma PromptInside(s: string, i: nat)
    requires i < |s| && PromptAt(s, i)
    ensures PromptAt(s[i..], 0) && (i > 0 ==> IsNewline(s[..i][i - 1]))
  {
  }

  lemma SameEnds(a: seq<string>, b: seq<string>, c: seq<string>)
    ensures a + b == a + c ==> b == c
  {
    if a + b == a + c {
      assert b == (a + b)[|a|..] == (a + c)[|a|..] == c;
    }
  }

  /** For example, with a line that begins with the prompt: cut after the prompt, the prompt is a line. */
  lemma PromptDependsOnChunking()
    ensures Lines("", "> a\r", [4]) == ["> a"] && Lines("", "> a\r", [2, 2]) == ["> ", "a"]
  {
    hide *;
    var s := "> a\r";
    Newline3(s);
    FirstRead(s, [4], 4);
    FoundIs(s, 3, s[4..], [4][1..], false);
    OneMoreLine("", s, [4]);
    FirstRead(s, [2, 2], 2);
    FoundIs(s[..2], 2, s[2..], [2, 2][1..], false);
    OneMoreLine("", s, [2, 2]);
    Newline1("a\r");
    FirstRead("a\r", [2], 2);
    FoundIs("a\r", 1, "", [2][1..], false);
    OneMoreLine("", "a\r", [2]);
    NoMoreLines([4][1..]);
    assert [2, 2][1..] == [2] && [4][1..] == [2][1..] == [] && s[..3] == "> a" && s[4..] == "" && s[2..] == "a\r";
    assert s[..2][..2] == s[..2];
  }

  lemma FoundIs(s: string, e: nat, incoming: string, sizes: seq<nat>, lost: bool)
    requires Eol(s) == Some(e)
    ensures e <= |s|
    ensures Found(s, incoming, sizes, lost)
        == Step(Some(s[..e]), if e < |s| then s[e + 1..] else "", incoming, sizes, lost)
  {
    EolInside(s);
    hide Eol;
  }

  lemma OneMoreLine(rest: string, incoming: string, sizes: seq<nat>)
    ensures var r := NextLine(rest, incoming, sizes);
            r.line.Some? ==> Lines(rest, incoming, sizes) == [r.line.value] + Lines(r.rest, r.incoming, r.sizes)
  {
    hide NextLine;
  }

  lemma NoMoreLines(sizes: seq<nat>)
    ensures Lines("", "", sizes) == []
  {
    assert Skip("") == "" && Eol("") == None;
    hide Skip, Eol;
  }

  /** The first read of a stream that has a line at once. */
  lemma FirstRead(s: string, sizes: seq<nat>, n: nat)
    requires sizes != [] && sizes[0] == n && 0 < n <= |s| < 100 && !IsNewline(s[0]) && Eol(s[..n]).Some?
    ensures NextLine("", s, sizes) == Found(s[..n], s[n..], sizes[1..], false)
  {
    assert "" + s[..n] == s[..n] && Skip(s[..n]) == s[..n] && Skip("") == "" && Eol("") == None;
    hide Skip, Eol, Found;
    assert Fetch("", 0, s, sizes, false) == Found(s[..n], s[n..], sizes[1..], false);
  }

  lemma Newline3(s: string)
    requires s == "> a\r"
    ensures s[..4] == s && Eol(s) == Some(3) && Eol(s[..2]) == Some(2) && s[..2] == "> "
    ensures !IsNewline(s[0])
  {
    FirstNewlineIs(s, 3);
  }

  lemma Newline1(s: string)
    requires s == "a\r"
    ensures s[..2] == s && Eol(s) == Some(1) && s[..1] == "a" && s[2..] == "" && !IsNewline(s[0])
  {
    FirstNewlineIs(s, 1);
  }

  // ----- what the reader's loop hands on

  /** A line for `processLine`, or the two lines of an SMS notification for the handler. */
  datatype Handed = Single(line: string) | Sms(notice: string, pdu: string)
  {
    function Both(): seq<string> {
      if Single? then [line] else [notice, pdu]
    }
  }

  predicate IsSMSUnsolicited(line: string) {
    "+CMT:" <= line || "+CDS:" <= line || "+CBM:" <= line
  }

  /** An SMS notification goes with the line after it, whatever that is; without one it is dropped. */
  function Grouped(lines: seq<string>): seq<Handed>
    decreases |lines|
  {
    if lines == [] || (|lines| == 1 && IsSMSUnsolicited(lines[0])) then []
    else if IsSMSUnsolicited(lines[0]) then [Sms(lines[0], lines[1])] + Grouped(lines[2..])
    else [Single(lines[0])] + Grouped(lines[1..])
  }

  function AllOf(handed: seq<Handed>): seq<string> {
    if handed == [] then [] else handed[0].Both() + AllOf(handed[1..])
  }

  /** Every line is handed on once and in order, but for a notification that nothing follows; and what goes to
      `processLine` is never one. */
  lemma {:induction false} GroupedIsAll(lines: seq<string>)
    ensures AllOf(Grouped(lines)) <= lines && |lines| <= |AllOf(Grouped(lines))| + 1
    ensures AllOf(Grouped(lines)) != lines ==> IsSMSUnsolicited(lines[|lines| - 1])
    ensures forall h <- Grouped(lines) :: if h.Single? then !IsSMSUnsolicited(h.line) else IsSMSUnsolicited(h.notice)
    decreases |lines|
  {
    hide IsSMSUnsolicited;
    if lines == [] || (|lines| == 1 && IsSMSUnsolicited(lines[0])) {
      return;
    } else if IsSMSUnsolicited(lines[0]) {
      GroupedIsAll(lines[2..]);
      assert lines == [lines[0], lines[1]] + lines[2..];
      assert ([Sms(lines[0], lines[1])] + Grouped(lines[2..]))[1..] == Grouped(lines[2..]);
    } else {
      GroupedIsAll(lines[1..]);
      assert lines == [lines[0]] + lines[1..];
      assert ([Single(lines[0])] + Grouped(lines[1..]))[1..] == Grouped(lines[1..]);
    }
  }
}
