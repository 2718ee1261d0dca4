/** The tokenizer in place (mbm/mbm-ril/at_tok.c:46-131, 215-231): it walks over a line that ends with a NUL
    and writes a NUL after each token, so that tokens are strings inside the line. A cursor or token of -1
    is NULL. */
module AtTokLine {
  import opened Basics
  import opened AtTok

  const NUL: char := '\0'

  /** The text at a cursor of a line whose own NUL is at `end`. */
  ghost function TextAt(s: seq<char>, cur: int, end: nat): Option<string>
    requires -1 <= cur <= end <= |s|
  {
    if cur < 0 then None else Some(s[cur..end])
  }

  ghost predicate Line(s: seq<char>, cur: int, end: nat) {
    -1 <= cur <= end < |s| && s[end] == NUL && (cur >= 0 ==> NUL !in s[cur..end])
  }

  /** There is this string at a place. */
  ghost predicate StringAt(s: seq<char>, at: int, text: string) {
    0 <= at && at + |text| < |s| && s[at..at + |text|] == text && s[at + |text|] == NUL && NUL !in text
  }

  lemma InLine(s: seq<char>, cur: nat, end: nat)
    requires Line(s, cur, end)
    ensures forall k | cur <= k < end :: s[k] != NUL
  {
    forall k | cur <= k < end ensures s[k] != NUL {
      assert s[cur..end][k - cur] == s[k];
    }
  }

  lemma NulOnlyAtEnd(s: seq<char>, cur: nat, p: nat, end: nat)
    requires Line(s, cur, end) && cur <= p <= end
    ensures s[p] == NUL <==> p == end
  {
    InLine(s, cur, end);
  }

  /** The first character of the text at a place. */
  lemma FirstChar(s: seq<char>, p: nat, end: nat, text: string)
    requires Line(s, p, end) && text == s[p..end]
    ensures s[p] == '"' <==> text != "" && text[0] == '"'
    ensures s[p] == '"' ==> p < end
  {
  }

  lemma LineFurther(s: seq<char>, cur: nat, p: nat, end: nat)
    requires Line(s, cur, end) && cur <= p <= end
    ensures Line(s, p, end)
  {
    assert forall c <- s[p..end] :: c in s[cur..end];
  }

  /** Text from p on, one character at a time. */
  lemma StepText(s: seq<char>, p: nat, end: nat)
    requires p < end <= |s|
    ensures s[p..end][0] == s[p] && s[p..end][1..] == s[p + 1..end] && s[p..end] != ""
  {
  }

  method SkipWhiteSpaceIn(buf: array<char>, cur: nat, ghost end: nat) returns (p: nat)
    requires Line(buf[..], cur, end)
    ensures cur <= p <= end && buf[p..end] == SkipWhiteSpace(buf[cur..end])
  {
    p := cur;
    InLine(buf[..], cur, end);
    while buf[p] != NUL && IsSpace(buf[p])
      invariant cur <= p <= end && SkipWhiteSpace(buf[p..end]) == SkipWhiteSpace(buf[cur..end])
      decreases end - p
    {
      StepText(buf[..], p, end);
      p := p + 1;
    }
    if p < end {
      StepText(buf[..], p, end);
    }
  }

  method SkipNextCommaIn(buf: array<char>, cur: nat, ghost end: nat) returns (p: nat)
    requires Line(buf[..], cur, end)
    ensures cur <= p <= end && buf[p..end] == SkipNextComma(buf[cur..end])
  {
    p := cur;
    InLine(buf[..], cur, end);
    while buf[p] != NUL && buf[p] != ','
      invariant cur <= p <= end && SkipNextComma(buf[p..end]) == SkipNextComma(buf[cur..end])
      decreases end - p
    {
      StepText(buf[..], p, end);
      p := p + 1;
    }
    if p < end {
      StepText(buf[..], p, end);
    }
    if buf[p] == ',' {
      p := p + 1;
    }
  }

  function Plus(r: Scan, k: nat): Scan {
    match r
    case Closed(n) => Closed(n + k)
    case _ => r
  }

  lemma ScanAtEnd()
    ensures ScanQuoted("", true) == Dangling && ScanQuoted("", false) == Open
  {
  }

  datatype QuoteState = END | NORMAL | ESCAPE

  /** The scan of a quoted string: -1 if it is not closed, else the place of its closing quote, which becomes
      a NUL; and where the scan stopped. */
  method ScanQuotedIn(buf: array<char>, cur: nat, ghost end: nat) returns (close: int, p: nat)
    requires Line(buf[..], cur, end) && ScanQuoted(buf[cur..end], false) != Dangling
    modifies buf
    ensures match ScanQuoted(old(buf[cur..end]), false)
            case Closed(n) => close == cur + n && close < end && buf[..] == old(buf[..])[close := NUL]
            case _ => close == -1 && p == end && buf[..] == old(buf[..])
  {
    var state := NORMAL;
    p := cur;
    ghost var s := buf[..];
    assert s[cur..end] == buf[cur..end];
    assert ScanQuoted(s[cur..end], false) == Plus(ScanQuoted(s[cur..end], false), 0);
    while state != END
      invariant cur <= p <= end && buf[..] == s && state != END
      invariant ScanQuoted(s[cur..end], false) == Plus(ScanQuoted(s[p..end], state == ESCAPE), p - cur)
      decreases end - p
    {
      NulOnlyAtEnd(s, cur, p, end);
      if p < end {
        StepText(s, p, end);
      } else {
        assert s[p..end] == [];
        ScanAtEnd();
      }
      match state {
        case NORMAL =>
          if buf[p] == BACKSLASH {
            state := ESCAPE;
          } else if buf[p] == QUOTE {
            state := END;
          } else if buf[p] == NUL {
            return -1, p;
          }
        case _ =>
          state := NORMAL;
      }
      if state == END {
        close := p;
        buf[p] := NUL;
        return;
      }
      p := p + 1;
    }
  }

  /** `strsep` at commas. */
  method StrSep(buf: array<char>, cur: nat, ghost end: nat) returns (next: int)
    requires Line(buf[..], cur, end)
    modifies buf
    ensures match FirstComma(old(buf[cur..end]))
            case None => next == -1 && buf[..] == old(buf[..])
            case Some(n) => next == cur + n + 1 <= end && buf[..] == old(buf[..])[cur + n := NUL]
  {
    var p := cur;
    ghost var s := buf[..];
    InLine(s, cur, end);
    ghost var text := s[cur..end];
    while buf[p] != NUL && buf[p] != ','
      invariant cur <= p <= end && buf[..] == s
      invariant ',' !in text[..p - cur]
      decreases end - p
    {
      assert text[..p + 1 - cur] == text[..p - cur] + [s[p]];
      p := p + 1;
    }
    if buf[p] == ',' {
      CommaAt(text, p - cur);
      buf[p] := NUL;
      return p + 1;
    }
    assert text[..p - cur] == text;
    next := -1;
  }

  lemma {:induction false} CommaAt(text: string, n: nat)
    requires n < |text| && text[n] == ',' && ',' !in text[..n]
    ensures FirstComma(text) == Some(n)
    decreases n
  {
    if n > 0 {
      assert text[0] == text[..n][0] && text[1..][..n - 1] == text[..n][1..];
      CommaAt(text[1..], n - 1);
    }
  }

  /** The token is a string of its own in the line, before where the cursor goes on; nothing before the old
      cursor is touched. */
  method NextTokIn(buf: array<char>, cur: int, ghost end: nat) returns (ret: int, next: int)
    requires Line(buf[..], cur, end) && CanScan(TextAt(buf[..], cur, end))
    modifies buf
    ensures var t := NextTok(TextAt(old(buf[..]), cur, end));
            && Line(buf[..], next, end) && TextAt(buf[..], next, end) == t.cur
            && (match t.text
                case None => ret == -1
                case Some(text) => cur <= ret && StringAt(buf[..], ret, text) && (next >= 0 ==> ret + |text| < next))
    ensures next >= 0 ==> cur <= next
    ensures cur >= 0 ==> buf[..cur] == old(buf[..cur])
  {
    hide *;
    LineIs(buf[..], cur, end);
    NextTokIs(TextAt(buf[..], cur, end));
    TextIs(buf[..], cur, end);
    if cur == -1 {
      return -1, -1;
    }
    ghost var was := buf[..];
    var p := SkipWhiteSpaceIn(buf, cur, end);
    ghost var s := buf[p..end];
    LineFurther(was, cur, p, end);
    LineIs(was, p, end);
    FirstChar(was, p, end, s);
    if buf[p] == '"' {
      ret, next := NextQuotedIn(buf, p, s, end);
      assert next == end ==> buf[next..end] == [];
    } else {
      ret := p;
      next := NextPlainIn(buf, p, s, end);
    }
    TextIs(buf[..], next, end);
    PrefixStays(was, buf[..], cur, p);
  }

  lemma PrefixStays(was: seq<char>, now: seq<char>, cur: nat, p: nat)
    requires cur <= p <= |was| && p <= |now| && now[..p] == was[..p]
    ensures now[..cur] == was[..cur]
  {
    assert now[..cur] == now[..p][..cur] && was[..cur] == was[..p][..cur];
  }

  method NextPlainIn(buf: array<char>, p: nat, ghost s: string, ghost end: nat) returns (next: int)
    requires p <= end < buf.Length && Line(buf[..], p, end) && s == buf[p..end]
    modifies buf
    ensures Line(buf[..], next, end) && -1 <= next <= end && (next >= 0 ==> p < next) && buf[..p] == old(buf[..p])
    ensures match FirstComma(s)
            case None => next == -1 && StringAt(buf[..], p, s)
            case Some(n) =>
              n < |s| && next >= 0 && buf[next..end] == s[n + 1..] && StringAt(buf[..], p, s[..n]) && p + n < next
  {
    hide *;
    ghost var was := buf[..];
    next := StrSep(buf, p, end);
    PlainTokenAt(was, buf[..], p, next, end);
    assert was[p..end] == s;
  }

  method NextQuotedIn(buf: array<char>, p: nat, ghost s: string, ghost end: nat) returns (ret: int, next: int)
    requires p < end < buf.Length && Line(buf[..], p, end) && s == buf[p..end] && ScanQuoted(s[1..], false) != Dangling
    modifies buf
    ensures Line(buf[..], next, end) && p < next <= end && buf[..p] == old(buf[..p])
    ensures match ScanQuoted(s[1..], false)
            case Closed(n) =>
              && n + 2 <= |s| && buf[next..end] == SkipNextComma(s[n + 2..])
              && ret == p + 1 && StringAt(buf[..], ret, s[1..n + 1]) && ret + n < next
            case _ => ret == -1 && next == end
  {
    hide *;
    ghost var was := buf[..];
    ret := p + 1;
    LineFurther(was, p, p + 1, end);
    assert s[1..] == buf[p + 1..end];
    var close, stop := ScanQuotedIn(buf, p + 1, end);
    if close < 0 {
      LineFurther(was, p, end, end);
      return -1, stop;
    }
    QuotedTokenAt(was, buf[..], p, close, end);
    ghost var n := close - p - 1;
    assert was[p..end] == s && close - p == n + 1;
    next := SkipNextCommaIn(buf, close + 1, end);
    LineFurther(buf[..], close + 1, next, end);
  }

  /** What NextTok does, in terms of the text after the white space. */
  lemma NextTokIs(cur: Option<string>)
    requires CanScan(cur)
    ensures QUOTE == '"' && NUL == '\0'
    ensures cur == None ==> NextTok(cur) == Token(None, None)
    ensures cur.Some? ==>
      var s := SkipWhiteSpace(cur.value);
      if s != "" && s[0] == QUOTE then
        && ScanQuoted(s[1..], false) != Dangling
        && (match ScanQuoted(s[1..], false)
            case Closed(n) => n + 2 <= |s| && NextTok(cur) == Token(Some(s[1..n + 1]), Some(SkipNextComma(s[n + 2..])))
            case _ => NextTok(cur) == Token(None, Some("")))
      else
        match FirstComma(s)
        case None => NextTok(cur) == Token(Some(s), None)
        case Some(n) => n < |s| && NextTok(cur) == Token(Some(s[..n]), Some(s[n + 1..]))
  {
    hide SkipWhiteSpace, SkipNextComma;
  }

  lemma TextIs(s: seq<char>, cur: int, end: nat)
    requires -1 <= cur <= end <= |s|
    ensures TextAt(s, cur, end) == if cur < 0 then None else Some(s[cur..end])
  {
  }

  lemma LineIs(s: seq<char>, cur: int, end: nat)
    requires Line(s, cur, end)
    ensures -1 <= cur <= end < |s| && s[end] == NUL
  {
  }

  lemma QuotedTokenAt(was: seq<char>, now: seq<char>, p: nat, close: nat, end: nat)
    requires Line(was, p, end) && p < close < end && now == was[close := NUL]
    ensures Line(now, close + 1, end) && now[close + 1..end] == was[p..end][close - p + 1..]
    ensures StringAt(now, p + 1, was[p..end][1..close - p])
    ensures now[..p] == was[..p]
  {
    InLine(was, p, end);
    SliceOfSlice(was, p, end, 1, close - p);
    SliceOfSlice(was, p, end, close - p + 1, close - p + 1);
    SlicesStay(was, close, NUL, p, p + 1, close);
    SlicesStay(was, close, NUL, p, close + 1, end);
  }

  lemma PlainTokenAt(was: seq<char>, now: seq<char>, p: nat, next: int, end: nat)
    requires Line(was, p, end)
    requires if next < 0 then next == -1 && now == was else p < next <= end && now == was[next - 1 := NUL]
    ensures Line(now, next, end) && now[..p] == was[..p]
    ensures next < 0 ==> StringAt(now, p, was[p..end])
    ensures next >= 0 ==> StringAt(now, p, was[p..end][..next - 1 - p]) && now[next..end] == was[p..end][next - p..]
  {
    InLine(was, p, end);
    if next >= 0 {
      SliceOfSlice(was, p, end, 0, next - 1 - p);
      SliceOfSlice(was, p, end, next - p, next - p);
      SlicesStay(was, next - 1, NUL, p, p, next - 1);
      SlicesStay(was, next - 1, NUL, p, next, end);
    }
  }

  method HasMoreIn(buf: array<char>, cur: int, ghost end: nat) returns (more: bool)
    requires Line(buf[..], cur, end)
    ensures more == HasMore(TextAt(buf[..], cur, end))
  {
    if cur >= 0 {
      InLine(buf[..], cur, end);
    }
    more := !(cur == -1 || buf[cur] == NUL);
  }

  lemma EarlierTokensStay(was: seq<char>, now: seq<char>, cur: int, at: int, text: string)
    requires StringAt(was, at, text) && 0 <= cur <= |was| == |now| && now[..cur] == was[..cur] && at + |text| < cur
    ensures StringAt(now, at, text)
  {
    assert now[at..at + |text|] == now[..cur][at..at + |text|] == was[..cur][at..at + |text|];
    assert now[at + |text|] == now[..cur][at + |text|];
  }

  /** What has been read off the line so far. */
  ghost predicate Read(s: seq<char>, cur: int, rets: seq<int>, fields: seq<Field>) {
    && |rets| <= |fields|
    && forall i | 0 <= i < |rets| :: StringAt(s, rets[i], fields[i].Raw())
          && (cur >= 0 ==> rets[i] + |fields[i].Raw()| < cur)
  }

  /** Reading a line that joins fields for as long as at_tok_hasmore says so: there is a token for every
      field, and it is the field's body and stays so while the later ones are cut out of the same line. */
  method ReadAll(buf: array<char>, ghost end: nat, ghost fields: seq<Field>) returns (rets: seq<int>)
    requires end < buf.Length && Line(buf[..], 0, end)
    requires Proper(fields) && fields != [] && buf[..end] == Join(fields)
    modifies buf
    ensures |rets| == |fields| && forall i | 0 <= i < |rets| :: StringAt(buf[..], rets[i], fields[i].Raw())
  {
    hide Proper, AllOk, Join, NextTok, CanScan, StringAt, SkipWhiteSpace, HasMore;
    rets := [];
    var cur := 0;
    assert fields[0..] == fields && buf[0..end] == buf[..end];
    MoreOfJoin(fields);
    var more := HasMoreIn(buf, cur, end);
    while more
      invariant |rets| <= |fields| && Line(buf[..], cur, end) && Read(buf[..], cur, rets, fields)
      invariant Proper(fields[|rets|..]) && (more <==> |rets| < |fields|)
      invariant more ==> cur >= 0 && buf[cur..end] == Join(fields[|rets|..])
      decreases |fields| - |rets|
    {
      ghost var i := |rets|;
      ghost var f, rest := fields[i], fields[i + 1..];
      assert fields[i..] == [f] + rest;
      ProperParts(f, rest);
      NextFieldBack(f, rest);
      ghost var was := buf[..];
      var ret, next := NextTokIn(buf, cur, end);
      ReadOneMore(was, buf[..], cur, next, rets, ret, fields);
      rets := rets + [ret];
      cur := next;
      MoreOfJoin(rest);
      NoMore(f);
      more := HasMoreIn(buf, cur, end);
    }
  }

  lemma MoreOfJoin(fields: seq<Field>)
    requires Proper(fields)
    ensures fields != [] ==> HasMore(Some(Join(fields)))
  {
    if fields != [] {
      assert fields == [fields[0]] + fields[1..];
      NextFieldBack(fields[0], fields[1..]);
    }
  }

  lemma NoMore(f: Field)
    ensures !HasMore(Remaining([], f))
  {
  }

  lemma ReadOneMore(was: seq<char>, now: seq<char>, cur: nat, next: int, rets: seq<int>, ret: int, fields: seq<Field>)
    requires |rets| < |fields| && Read(was, cur, rets, fields) && cur <= |was| == |now| && now[..cur] == was[..cur]
    requires StringAt(now, ret, fields[|rets|].Raw())
    requires (next >= 0 ==> cur <= next && ret + |fields[|rets|].Raw()| < next)
    ensures Read(now, next, rets + [ret], fields)
  {
    hide StringAt;
    forall i | 0 <= i < |rets|
      ensures StringAt(now, rets[i], fields[i].Raw())
    {
      EarlierTokensStay(was, now, cur, rets[i], fields[i].Raw());
    }
  }
}
