/** The buffer of `readline` (mbm/mbm-ril/atchannel.c:72-73, 439-604): an array that is filled at the end, read at
    a cursor, and compacted in place. */
module AtBuffer {
  import opened Basics
  import opened AtReadLine
  import opened AtLineLaws

  predicate NulFree(s: string) {
    NUL !in s
  }

  class AtContext {
    const ATBuffer: array<char>
    var ATBufferCur: nat
    /** Where the NUL is that ends the text at the cursor. */
    ghost var end: nat
    /** What can still be read from the channel, and how much of it each time. */
    var incoming: string
    var sizes: seq<nat>

    /** There is a C string at the cursor. */
    ghost predicate Terminated()
      reads this, ATBuffer
    {
      && ATBuffer.Length == MAX_AT_RESPONSE + 1 && ATBufferCur <= end < MAX_AT_RESPONSE
      && ATBuffer[end] == NUL && NulFree(Text())
    }

    /** There is a second NUL. */
    ghost predicate Spare()
      requires ATBuffer.Length == MAX_AT_RESPONSE + 1
      reads this, ATBuffer
    {
      end + 1 < MAX_AT_RESPONSE && ATBuffer[end + 1] == NUL
    }

    ghost predicate Valid()
      reads this, ATBuffer
    {
      && Terminated() && NulFree(incoming)
      && (Eol(Skip(Text())).Some? ==> Spare())
    }

    ghost function Text(): string
      requires ATBufferCur <= end < ATBuffer.Length
      reads this, ATBuffer
    {
      ATBuffer[ATBufferCur..end]
    }

    constructor (stream: string, chunks: seq<nat>)
      requires NulFree(stream)
      ensures Valid() && fresh(ATBuffer) && Text() == "" && incoming == stream && sizes == chunks
    {
      ATBuffer := new char[MAX_AT_RESPONSE + 1](_ => NUL);
      ATBufferCur, end := 0, 0;
      incoming, sizes := stream, chunks;
    }

    /** -1 stands for NULL. */
    method FindNextEOL() returns (cur: int)
      requires Terminated()
      ensures Eol(Text()) == if cur < 0 then None else Some(cur - ATBufferCur)
      ensures cur == -1 || ATBufferCur <= cur <= end
    {
      ghost var text := Text();
      NoNulIn(text);
      cur := ATBufferCur;
      if ATBuffer[cur] == '>' && ATBuffer[cur + 1] == ' ' && ATBuffer[cur + 2] == NUL {
        assert text[0] == '>' && text[1] == ' ' && |text| == 2;
        return cur + 2;
      }
      assert text != "> ";
      while ATBuffer[cur] != NUL && ATBuffer[cur] != '\r' && ATBuffer[cur] != '\n'
        invariant ATBufferCur <= cur <= end
        invariant forall k | 0 <= k < cur - ATBufferCur :: !IsNewline(text[k])
        decreases end - cur
      {
        assert text[cur - ATBufferCur] == ATBuffer[cur];
        cur := cur + 1;
      }
      assert cur < end ==> text[cur - ATBufferCur] == ATBuffer[cur];
      if ATBuffer[cur] == NUL {
        return -1;
      }
      FirstNewlineIs(text, cur - ATBufferCur);
    }

    method SkipNewlines()
      requires Terminated()
      modifies this`ATBufferCur
      ensures ATBufferCur <= end && Text() == Skip(old(Text())) && NulFree(Text())
    {
      while IsNewline(ATBuffer[ATBufferCur])
        invariant ATBufferCur <= end && Skip(Text()) == Skip(old(Text())) && NulFree(Text())
        decreases end - ATBufferCur
      {
        assert ATBuffer[ATBufferCur + 1..end] == Text()[1..];
        ATBufferCur := ATBufferCur + 1;
      }
    }

    method StrLen() returns (len: nat)
      requires Terminated()
      ensures len == end - ATBufferCur
    {
      NoNulBetween(ATBuffer[..], ATBufferCur, end);
      len := 0;
      while ATBuffer[ATBufferCur + len] != NUL
        invariant ATBufferCur + len <= end
        decreases end - len
      {
        len := len + 1;
      }
    }

    /** The partial line, moved to the front. */
    method MoveUp() returns (len: nat)
      requires Terminated()
      modifies this`ATBufferCur, this`end, ATBuffer
      ensures ATBufferCur == 0 && end == len < MAX_AT_RESPONSE && Text() == old(Text()) && ATBuffer[end] == NUL
      ensures len <= old(end)
    {
      len := StrLen();
      var from, i := ATBufferCur, 0;
      ghost var was := ATBuffer[..];
      assert was[from..from + len] == Text();
      while i <= len
        invariant 0 <= i <= len + 1 && end == from + len
        invariant forall k | 0 <= k < i :: ATBuffer[k] == was[from + k]
        invariant forall k | i <= k < ATBuffer.Length :: ATBuffer[k] == was[k]
        modifies ATBuffer
      {
        ATBuffer[i] := ATBuffer[from + i];
        i := i + 1;
      }
      assert ATBuffer[0..len] == was[from..from + len];
      ATBufferCur, end := 0, len;
    }

    /** A read to readAt, and the two terminators after it. */
    method ReadMore(readAt: nat) returns (count: nat)
      requires ATBuffer.Length == MAX_AT_RESPONSE + 1 && ATBufferCur <= end == readAt < MAX_AT_RESPONSE - 2
      requires incoming != "" && NulFree(Text()) && NulFree(incoming)
      modifies this`end, this`incoming, this`sizes, ATBuffer
      ensures var n := Count(readAt, old(incoming), old(sizes));
              && count == n && end == readAt + n <= MAX_AT_RESPONSE - 2 && Text() == old(Text()) + old(incoming)[..n]
              && incoming == old(incoming)[n..] && sizes == Tail(old(sizes))
      ensures ATBuffer[end] == NUL && ATBuffer[end + 1] == NUL && NulFree(Text()) && NulFree(incoming)
    {
      count := Count(readAt, incoming, sizes);
      forall i | readAt <= i < readAt + count {
        ATBuffer[i] := incoming[i - readAt];
      }
      end := readAt + count;
      assert ATBuffer[readAt..end] == incoming[..count];
      assert Text() == ATBuffer[ATBufferCur..readAt] + ATBuffer[readAt..end];
      assert ATBuffer[ATBufferCur..readAt] == old(Text());
      incoming, sizes := incoming[count..], Tail(sizes);
      ATBuffer[readAt + count], ATBuffer[readAt + count + 1] := NUL, NUL;
    }

    /** Nothing in the buffer. */
    method Ditch()
      requires ATBuffer.Length == MAX_AT_RESPONSE + 1
      modifies this`ATBufferCur, this`end, ATBuffer
      ensures ATBufferCur == end == 0 && ATBuffer[end] == NUL && Text() == ""
    {
      ATBufferCur, end := 0, 0;
      ATBuffer[ATBufferCur] := NUL;
    }

    /** No line yet, and the buffer is filled up to readAt. */
    ghost predicate Filling(readAt: nat, r: Step, lost: bool)
      reads this, ATBuffer
    {
      && Terminated() && NulFree(incoming) && end == readAt && Eol(Text()) == None && Skip(Text()) == Text()
      && r == Fill(Text(), readAt, incoming, sizes, lost)
    }

    /** A line that ends at eol. */
    ghost predicate Complete(eol: nat, r: Step, lost: bool)
      reads this, ATBuffer
    {
      && Terminated() && NulFree(incoming) && Eol(Text()) == Some(eol - ATBufferCur) && ATBufferCur <= eol <= end
      && Spare() && r == Found(Text(), incoming, sizes, lost)
    }

    /** What is done before reading: a line that is already there, or the buffer ready to be filled. */
    method LookForLine(ghost r: Step) returns (readAt: nat, eol: int)
      requires Valid() && r == NextLine(Text(), incoming, sizes)
      modifies this`ATBufferCur, this`end, ATBuffer
      ensures if eol < 0 then eol == -1 && Filling(readAt, r, false) else Complete(eol, r, false)
    {
      hide Eol, Skip, NextLine, Fill, Found;
      readAt, eol := 0, -1;
      NextUnfolds(Text(), incoming, sizes);
      SkipTwice(Skip(Text()));
      SkipStarts(Text());
      Blank();
      if ATBuffer[ATBufferCur] == NUL {
        EmptyText();
        Ditch();
      } else {
        SkipNewlines();
        eol := FindNextEOL();
        if eol < 0 {
          readAt := MoveUp();
        }
      }
    }

    /** A full line in the buffer: end it, and go on after it. */
    method TakeLine(eol: nat, ghost r: Step, ghost lost: bool) returns (line: string)
      requires Complete(eol, r, lost)
      modifies this`ATBufferCur, this`end, ATBuffer
      ensures Valid() && r == Step(Some(line), Text(), incoming, sizes, lost)
    {
      hide Eol, Found, NulFree, FirstNewline, Skip;
      ghost var e := eol - ATBufferCur;
      ghost var text := Text();
      FoundIs(text, e, incoming, sizes, lost);
      NulFreeAfter(text, e);
      Blank();
      line := ATBuffer[ATBufferCur..eol];
      CutAt(ATBuffer[..], ATBufferCur, eol, end);
      ghost var was := ATBuffer[..];
      ATBuffer[eol] := NUL;
      assert ATBuffer[..] == was[eol := NUL];
      if eol == end {
        end := end + 1;
      }
      ATBufferCur := eol + 1;
      assert ATBuffer[ATBufferCur..end] == ATBuffer[..][ATBufferCur..end];
    }

    /** A full buffer makes room. */
    method MakeRoom(readAt: nat, ghost r: Step, ghost lost: bool) returns (p: nat, ghost l: bool)
      requires Filling(readAt, r, lost)
      modifies this`ATBufferCur, this`end, ATBuffer
      ensures Filling(p, r, l) && p < MAX_AT_RESPONSE - 2
    {
      hide Eol, Skip, Fill, Count, Found;
      p, l := readAt, lost;
      if MAX_AT_RESPONSE - readAt - 2 <= 0 {
        FillUnfolds(Text(), readAt, incoming, sizes, lost);
        Blank();
        l := lost || Text() != "";
        Ditch();
        p := 0;
      }
    }

    /** One read, and a look whether there is a line now. */
    method ReadOnce(readAt: nat, ghost r: Step, ghost lost: bool) returns (p: nat, eol: int)
      requires Filling(readAt, r, lost) && readAt < MAX_AT_RESPONSE - 2 && incoming != ""
      modifies this, ATBuffer
      ensures if eol < 0 then eol == -1 && Filling(p, r, lost) else Complete(eol, r, lost)
      ensures |incoming| < |old(incoming)|
    {
      hide Eol, Skip, Fill, Count, Found;
      FillUnfolds(Text(), readAt, incoming, sizes, lost);
      var count := ReadMore(readAt);
      p := readAt + count;
      SkipTwice(Skip(Text()));
      SkipStarts(Text());
      SkipNewlines();
      eol := FindNextEOL();
    }

    /** The stream is at its end. */
    lemma NoMoreToRead(readAt: nat, r: Step, lost: bool)
      requires Filling(readAt, r, lost) && readAt < MAX_AT_RESPONSE - 2 && incoming == ""
      ensures Valid() && r == Step(None, Text(), incoming, sizes, lost)
    {
      hide Eol, Skip, Fill;
      FillUnfolds(Text(), readAt, incoming, sizes, lost);
    }

    /** One call of readline does what the stream and the buffer's text say. */
    method Readline() returns (line: Option<string>)
      requires Valid()
      modifies this, ATBuffer
      ensures Valid()
      ensures var r := NextLine(old(Text()), old(incoming), old(sizes));
              line == r.line && Text() == r.rest && incoming == r.incoming && sizes == r.sizes
    {
      ghost var r, lost := NextLine(Text(), incoming, sizes), false;
      hide *;
      var readAt, eol := LookForLine(r);
      while eol < 0
        invariant if eol < 0 then eol == -1 && Filling(readAt, r, lost) else Complete(eol, r, lost)
        decreases if eol < 0 then |incoming| + 1 else 0
      {
        readAt, lost := MakeRoom(readAt, r, lost);
        if incoming == "" {
          NoMoreToRead(readAt, r, lost);
          return None;
        }
        readAt, eol := ReadOnce(readAt, r, lost);
      }
      var l := TakeLine(eol, r, lost);
      line := Some(l);
    }

    /** The reader's loop over a whole stream: what it hands on is the stream's pieces, an SMS notification with
        the piece after it, however the stream comes in. */
    method ReaderLoop() returns (handed: seq<Handed>)
      requires Valid()
      modifies this, ATBuffer
      ensures handed == Grouped(Lines(old(Text()), old(incoming), old(sizes)))
      ensures old(Text()) == "" && NoPrompt(old(incoming)) && LinesFit(old(incoming)) ==>
                handed == Grouped(Split(old(incoming)))
      ensures forall h <- handed :: forall l <- h.Both() :: l != "" && '\r' !in l && '\n' !in l
    {
      hide NextLine, Split, NoPrompt, LinesFit, Lines, Grouped, IsSMSUnsolicited, Eol, Skip, NulFree, Spare;
      handed := [];
      ghost var all := Lines(Text(), incoming, sizes);
      HandedAreClean(Text(), incoming, sizes);
      GroupedAfter([], all);
      if Text() == "" && NoPrompt(incoming) && LinesFit(incoming) {
        ChunkingDoesNotMatter(incoming, sizes, sizes);
      }
      while true
        invariant Valid() && Grouped(all) == handed + Grouped(Lines(Text(), incoming, sizes))
        decreases |Text()| + |incoming|
      {
        ghost var was, lines := handed, Lines(Text(), incoming, sizes);
        GroupedAfter(was, lines);
        var line := NextOf(lines);
        if line.None? {
          return;
        }
        if IsSMSUnsolicited(line.value) {
          var line2 := NextOf(lines[1..]);
          if line2.None? {
            return;
          }
          handed := handed + [Sms(line.value, line2.value)];
        } else {
          handed := handed + [Single(line.value)];
        }
      }
    }

    /** The next of the lines that are still to come. */
    method NextOf(ghost lines: seq<string>) returns (line: Option<string>)
      requires Valid() && lines == Lines(Text(), incoming, sizes)
      modifies this, ATBuffer
      ensures Valid()
      ensures if line.None? then lines == []
              else && lines != [] && lines[0] == line.value && lines[1..] == Lines(Text(), incoming, sizes)
                   && |Text()| + |incoming| < |old(Text())| + |old(incoming)|
    {
      hide NextLine, Split, Lines, Eol, Skip, NulFree, Spare;
      NextConsumes(Text(), incoming, sizes);
      LinesUnfold(Text(), incoming, sizes);
      line := Readline();
    }

    lemma EmptyText()
      requires Terminated() && ATBuffer[ATBufferCur] == NUL
      ensures Text() == ""
    {
      NoNulBetween(ATBuffer[..], ATBufferCur, end);
    }
  }

  lemma NoNulIn(s: string)
    requires NulFree(s)
    ensures forall k | 0 <= k < |s| :: s[k] != NUL
  {
  }

  lemma LinesUnfold(rest: string, incoming: string, sizes: seq<nat>)
    ensures var r := NextLine(rest, incoming, sizes);
            Lines(rest, incoming, sizes) == if r.line.None? then []
                else [r.line.value] + Lines(r.rest, r.incoming, r.sizes)
  {
    hide NextLine;
  }

  /** Cutting a text at a place in it. */
  lemma CutAt(s: seq<char>, cur: nat, p: nat, end: nat)
    requires cur <= p <= end < |s|
    ensures s[cur..p] == s[cur..end][..p - cur]
    ensures p < end ==> s[p := NUL][p + 1..end] == s[cur..end][p - cur + 1..]
    ensures s[p := NUL][end + 1..end + 1] == ""
  {
  }

  lemma NulFreeAfter(s: string, e: nat)
    requires NulFree(s)
    ensures e < |s| ==> NulFree(s[e + 1..])
    ensures NulFree("")
  {
  }

  lemma NoNulBetween(a: seq<char>, cur: nat, end: nat)
    requires cur <= end <= |a| && NulFree(a[cur..end])
    ensures forall k | cur <= k < end :: a[k] != NUL
  {
    forall k | cur <= k < end ensures a[k] != NUL {
      assert a[cur..end][k - cur] == a[k];
    }
  }

  lemma Blank()
    ensures Skip("") == "" && Eol("") == None
  {
  }

  lemma SkipTwice(s: string)
    ensures s == "" || !IsNewline(s[0]) ==> Skip(s) == s
  {
  }

  lemma GroupedAfter(handed: seq<Handed>, lines: seq<string>)
    ensures handed + [] == handed && [] + Grouped(lines) == Grouped(lines)
    ensures handed + Grouped(lines)
         == if lines == [] || (|lines| == 1 && IsSMSUnsolicited(lines[0])) then handed
            else if IsSMSUnsolicited(lines[0]) then (handed + [Sms(lines[0], lines[1])]) + Grouped(lines[1..][1..])
            else (handed + [Single(lines[0])]) + Grouped(lines[1..])
  {
    hide *;
    GroupedIs(lines);
    if lines != [] && !(|lines| == 1 && IsSMSUnsolicited(lines[0])) {
      if IsSMSUnsolicited(lines[0]) {
        Associate(handed, [Sms(lines[0], lines[1])], Grouped(lines[1..][1..]));
      } else {
        Associate(handed, [Single(lines[0])], Grouped(lines[1..]));
      }
    }
  }

  lemma GroupedIs(lines: seq<string>)
    ensures Grouped(lines)
         == if lines == [] || (|lines| == 1 && IsSMSUnsolicited(lines[0])) then []
            else if IsSMSUnsolicited(lines[0]) then [Sms(lines[0], lines[1])] + Grouped(lines[1..][1..])
            else [Single(lines[0])] + Grouped(lines[1..])
  {
    hide IsSMSUnsolicited;
    if |lines| > 1 {
      assert lines[1..][1..] == lines[2..];
    }
  }
}
