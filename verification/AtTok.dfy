/** Tokens of AT response lines (mbm/mbm-ril/at_tok.c:46-131, 215-231) on the text at the cursor: `None` is
    a cursor that is NULL. */
module AtTok {
  import opened Basics

  const QUOTE: char := '"'
  const BACKSLASH: char := '\\'

  predicate IsSpace(c: char) {
    c == ' ' || c == '\t' || c == '\n' || c == '\r' || c == 11 as char || c == 12 as char
  }

  function SkipWhiteSpace(s: string): (r: string)
    ensures r == "" || !IsSpace(r[0])
  {
    if s != "" && IsSpace(s[0]) then SkipWhiteSpace(s[1..]) else s
  }

  /** The text after the next comma. */
  function SkipNextComma(s: string): string {
    if s == "" then ""
    else if s[0] == ',' then s[1..] else SkipNextComma(s[1..])
  }

  /** How the scan of a quoted string ends: at the closing quote, at the end of the text, or on a backslash
      that is the last character, when the program reads on past the end. */
  datatype Scan = Closed(at: nat) | Open | Dangling

  function ScanQuoted(s: string, escape: bool): (r: Scan)
    ensures r.Closed? ==> r.at < |s| && s[r.at] == QUOTE
  {
    if s == "" then if escape then Dangling else Open
    else if !escape && s[0] == QUOTE then Closed(0)
    else
      match ScanQuoted(s[1..], !escape && s[0] == BACKSLASH)
      case Closed(n) => Closed(n + 1)
      case r => r
  }

  function FirstComma(s: string): (r: Option<nat>)
    ensures r.Some? ==> r.value < |s| && s[r.value] == ',' && ',' !in s[..r.value]
    ensures r.None? ==> ',' !in s
  {
    if s == "" then None
    else if s[0] == ',' then Some(0)
    else
      match FirstComma(s[1..])
      case None => None
      case Some(n) => Some(n + 1)
  }

  datatype Token = Token(text: Option<string>, cur: Option<string>)

  /** The program may look for a token here: no quoted string that ends in a lone backslash. */
  predicate CanScan(cur: Option<string>) {
    cur.Some? ==>
      var s := SkipWhiteSpace(cur.value);
      s != "" && s[0] == QUOTE ==> ScanQuoted(s[1..], false) != Dangling
  }

  function NextTok(cur: Option<string>): Token
    requires CanScan(cur)
  {
    match cur
    case None => Token(None, None)
    case Some(t) =>
      var s := SkipWhiteSpace(t);
      if s != "" && s[0] == QUOTE then
        match ScanQuoted(s[1..], false)
        case Closed(n) => Token(Some(s[1..n + 1]), Some(SkipNextComma(s[n + 2..])))
        case _ => Token(None, Some(""))
      else
        match FirstComma(s)
        case None => Token(Some(s), None)
        case Some(n) => Token(Some(s[..n]), Some(s[n + 1..]))
  }

  predicate HasMore(cur: Option<string>) {
    cur.Some? && cur.value != ""
  }

  // ----- joining fields

  /** A field of a line; the body of a quoted field is kept as written, escapes included. */
  datatype Field = Quoted(body: string) | Plain(text: string)
  {
    function Written(): string {
      if Quoted? then [QUOTE] + body + [QUOTE] else text
    }

    function Raw(): string {
      if Quoted? then body else text
    }

    /** Inner quotes are escaped and no backslash is left over; a plain field has no comma and does not
        begin like something else. */
    predicate Ok() {
      if Quoted? then ScanQuoted(body, false) == Open
      else ',' !in text && (text != "" ==> text[0] != QUOTE && !IsSpace(text[0]))
    }
  }

  function Join(fields: seq<Field>): string {
    if fields == [] then ""
    else if |fields| == 1 then fields[0].Written()
    else fields[0].Written() + ([','] + Join(fields[1..]))
  }

  predicate AllOk(fields: seq<Field>) {
    forall f <- fields :: f.Ok()
  }

  /** All fields are proper, and a line does not end in an empty one that is not quoted. */
  predicate Proper(fields: seq<Field>) {
    AllOk(fields) && (fields != [] ==> fields[|fields| - 1] != Plain(""))
  }

  /** The cursor when all but these fields have been read, the last of those read being `last`. */
  function Remaining(fields: seq<Field>, last: Field): Option<string> {
    if fields != [] then Some(Join(fields)) else if last.Quoted? then Some("") else None
  }

  lemma {:induction false} ScanBody(body: string, escape: bool, rest: string)
    requires ScanQuoted(body, escape) == Open
    ensures ScanQuoted(body + [QUOTE] + rest, escape) == Closed(|body|)
    decreases |body|
  {
    var t := body + [QUOTE] + rest;
    if body != "" {
      ScanBody(body[1..], !escape && body[0] == BACKSLASH, rest);
      assert t[1..] == body[1..] + [QUOTE] + rest;
    } else {
      assert t[0] == QUOTE;
    }
  }

  lemma {:induction false} FirstCommaAfter(text: string, rest: string)
    requires ',' !in text
    ensures FirstComma(text + ([','] + rest)) == Some(|text|) && FirstComma(text) == None
    decreases |text|
  {
    if text != "" {
      assert (text + ([','] + rest))[1..] == text[1..] + ([','] + rest);
      FirstCommaAfter(text[1..], rest);
    }
  }

  lemma JoinCons(f: Field, rest: seq<Field>)
    ensures Join([f] + rest) == f.Written() + if rest == [] then "" else [','] + Join(rest)
  {
    assert ([f] + rest)[1..] == rest;
    assert f.Written() + "" == f.Written();
  }

  lemma QuotedToken(s: string, n: nat)
    requires s != "" && s[0] == QUOTE && ScanQuoted(s[1..], false) == Closed(n)
    ensures n + 2 <= |s|
    ensures CanScan(Some(s)) && NextTok(Some(s)) == Token(Some(s[1..n + 1]), Some(SkipNextComma(s[n + 2..])))
  {
    NothingToSkip(s);
    hide SkipWhiteSpace, SkipNextComma;
  }

  lemma QuotedComesBack(body: string, tail: string, rest: string)
    requires ScanQuoted(body, false) == Open && (tail == "" || tail == [','] + rest)
    ensures var cur := Some([QUOTE] + body + [QUOTE] + tail);
            CanScan(cur) && NextTok(cur) == Token(Some(body), Some(if tail == "" then "" else rest))
  {
    hide ScanQuoted, SkipWhiteSpace, NextTok, CanScan;
    var s := [QUOTE] + body + [QUOTE] + tail;
    assert s[0] == QUOTE;
    ScanBody(body, false, tail);
    assert s[1..] == body + [QUOTE] + tail;
    QuotedToken(s, |body|);
    assert s[1..|body| + 1] == body && s[|body| + 2..] == tail;
    assert tail != "" ==> tail[1..] == rest;
  }

  lemma NothingToSkip(s: string)
    ensures s == "" || !IsSpace(s[0]) ==> SkipWhiteSpace(s) == s
  {
  }

  lemma PlainInside(text: string, rest: string)
    requires ',' !in text && (text != "" ==> text[0] != QUOTE && !IsSpace(text[0]))
    ensures var cur := Some(text + ([','] + rest)); CanScan(cur) && NextTok(cur) == Token(Some(text), Some(rest))
  {
    var s := text + ([','] + rest);
    FirstCommaAfter(text, rest);
    assert s[0] == if text == "" then ',' else text[0];
    NothingToSkip(s);
    hide SkipWhiteSpace, FirstComma, IsSpace;
    assert s[..|text|] == text && s[|text| + 1..] == rest;
  }

  lemma PlainAtEnd(text: string)
    requires ',' !in text && text != "" && text[0] != QUOTE && !IsSpace(text[0])
    ensures CanScan(Some(text)) && NextTok(Some(text)) == Token(Some(text), None)
  {
    FirstCommaAfter(text, "");
    NothingToSkip(text);
    hide SkipWhiteSpace, FirstComma, IsSpace;
  }

  lemma PlainComesBack(text: string, tail: string, rest: string)
    requires ',' !in text && (text != "" ==> text[0] != QUOTE && !IsSpace(text[0]))
    requires if tail == "" then text != "" else tail == [','] + rest
    ensures var cur := Some(text + tail);
            CanScan(cur) && NextTok(cur) == Token(Some(text), if tail == "" then None else Some(rest))
  {
    hide *;
    if tail == "" {
      PlainAtEnd(text);
      assert text + tail == text;
    } else {
      PlainInside(text, rest);
    }
  }

  lemma ProperParts(f: Field, rest: seq<Field>)
    requires Proper([f] + rest)
    ensures AllOk([f] + rest) && (rest == [] ==> f != Plain(""))
  {
    hide AllOk;
  }

  /** Reading a token off joined fields gives the first field's body and leaves the others. */
  lemma NextFieldBack(f: Field, rest: seq<Field>)
    requires AllOk([f] + rest) && (rest == [] ==> f != Plain(""))
    ensures AllOk(rest) && (Proper([f] + rest) ==> Proper(rest))
    ensures var cur := Some(Join([f] + rest));
            CanScan(cur) && HasMore(cur) && NextTok(cur) == Token(Some(f.Raw()), Remaining(rest, f))
  {
    var fs := [f] + rest;
    assert f == fs[0] && f.Ok() && forall k | 0 <= k < |rest| :: rest[k] == fs[k + 1];
    assert forall g | g in rest :: g in fs;
    JoinCons(f, rest);
    var tail := if rest == [] then "" else [','] + Join(rest);
    hide Join, NextTok, CanScan, ScanQuoted;
    if f.Quoted? {
      QuotedComesBack(f.body, tail, Join(rest));
    } else {
      PlainComesBack(f.text, tail, Join(rest));
    }
  }

  /** Token after token, with what at_tok_hasmore says before each. */
  function Tokens(cur: Option<string>, n: nat): seq<(Option<string>, bool)>
    decreases n
  {
    if n == 0 || !CanScan(cur) then []
    else [(NextTok(cur).text, HasMore(cur))] + Tokens(NextTok(cur).cur, n - 1)
  }

  function CursorAfter(cur: Option<string>, n: nat): Option<string>
    decreases n
  {
    if n == 0 || !CanScan(cur) then cur else CursorAfter(NextTok(cur).cur, n - 1)
  }

  function Bodies(fields: seq<Field>): seq<string> {
    if fields == [] then [] else [fields[0].Raw()] + Bodies(fields[1..])
  }

  function Found(bodies: seq<string>): seq<(Option<string>, bool)> {
    if bodies == [] then [] else [(Some(bodies[0]), true)] + Found(bodies[1..])
  }

  /** The tokenizer inverts joining: as many calls as there are fields give the fields' bodies in order, with
      more to come before each, and nothing more after the last. */
  lemma {:induction false} TokensOfJoin(fields: seq<Field>)
    requires Proper(fields) && fields != []
    ensures Tokens(Some(Join(fields)), |fields|) == Found(Bodies(fields))
    ensures !HasMore(CursorAfter(Some(Join(fields)), |fields|))
    decreases |fields|
  {
    var f, rest := fields[0], fields[1..];
    assert fields == [f] + rest;
    NextFieldBack(f, rest);
    var cur := Some(Join(fields));
    hide Proper, Join, NextTok, CanScan;
    assert Bodies(fields)[1..] == Bodies(rest);
    if rest != [] {
      TokensOfJoin(rest);
    } else {
      assert Tokens(NextTok(cur).cur, 0) == [] && Bodies(rest) == [];
    }
  }

  /** For fields that are proper otherwise it is so exactly if the line does not end in an empty field that is
      not quoted: such a field is still returned, but at_tok_hasmore denies it. */
  lemma {:induction false} TokensExactlyIfLastNotEmpty(fields: seq<Field>)
    requires AllOk(fields) && fields != []
    ensures Tokens(Some(Join(fields)), |fields|) == Found(Bodies(fields)) <==> fields[|fields| - 1] != Plain("")
    decreases |fields|
  {
    if fields[|fields| - 1] != Plain("") {
      TokensOfJoin(fields);
    } else if |fields| == 1 {
      EmptyToken();
      assert Join(fields) == "" && Bodies(fields) == [""] + Bodies(fields[1..]);
      FoundDiffers(fields);
    } else {
      var f, rest := fields[0], fields[1..];
      assert fields == [f] + rest;
      NextFieldBack(f, rest);
      TokensExactlyIfLastNotEmpty(rest);
      hide Join, NextTok, CanScan, AllOk;
      var cur := Some(Join(fields));
      assert Bodies(fields)[1..] == Bodies(rest);
      assert Tokens(cur, |fields|)[1..] == Tokens(Some(Join(rest)), |rest|);
      assert Found(Bodies(fields))[1..] == Found(Bodies(rest));
    }
  }

  lemma EmptyToken()
    ensures CanScan(Some("")) && NextTok(Some("")) == Token(Some(""), None) && !HasMore(Some(""))
  {
    NothingToSkip("");
    hide SkipWhiteSpace;
  }

  lemma FoundDiffers(fields: seq<Field>)
    requires |fields| == 1 && Join(fields) == "" && CanScan(Some("")) && !HasMore(Some(""))
    ensures Tokens(Some(Join(fields)), 1) != Found(Bodies(fields))
  {
    hide NextTok, CanScan, Join;
    assert Tokens(Some(""), 1)[0].1 == false;
    assert Found(Bodies(fields))[0].1 == true;
  }

  // ----- the characters that matter

  /** Blanks and the like in front of a field are skipped, and nothing else is. */
  lemma {:induction false} BlanksAreSkipped(blanks: string, s: string)
    requires forall c <- blanks :: c in [' ', '\t', '\n', '\r', 11 as char, 12 as char]
    ensures CanScan(Some(blanks + s)) <==> CanScan(Some(s))
    ensures CanScan(Some(s)) ==> NextTok(Some(blanks + s)) == NextTok(Some(s))
    decreases |blanks|
  {
    hide ScanQuoted, FirstComma, SkipNextComma;
    if blanks == "" {
      assert blanks + s == s;
    } else {
      var t := blanks + s;
      assert t[0] == blanks[0] && blanks[0] in blanks && t[1..] == blanks[1..] + s;
      assert forall c <- blanks[1..] :: c in blanks;
      BlanksAreSkipped(blanks[1..], s);
    }
  }

  lemma OthersAreNot(text: string)
    requires ',' !in text && text != "" && text[0] != '"'
    requires text[0] !in [' ', '\t', '\n', '\r', 11 as char, 12 as char]
    ensures CanScan(Some(text)) && NextTok(Some(text)) == Token(Some(text), None)
  {
    PlainAtEnd(text);
    hide NextTok, CanScan;
  }

  /** A string between quotation marks, with or without a quotation mark behind a backslash in it. */
  lemma QuotedAsWritten(a: string, b: string)
    requires '"' !in a && '\\' !in a && '"' !in b && '\\' !in b
    ensures var s := ['"'] + a + ['"', ','] + b; CanScan(Some(s)) && NextTok(Some(s)) == Token(Some(a), Some(b))
    ensures var body := a + ['\\', '"'] + b;
            var s := ['"'] + body + ['"'];
            CanScan(Some(s)) && NextTok(Some(s)) == Token(Some(body), Some(""))
  {
    NoMarks(a);
    QuotedComesBack(a, [','] + b, b);
    assert [QUOTE] + a + [QUOTE] + ([','] + b) == ['"'] + a + ['"', ','] + b;
    var body := a + ['\\', '"'] + b;
    EscapedIsOpen(a, b);
    QuotedComesBack(body, "", "");
    assert [QUOTE] + body + [QUOTE] + "" == ['"'] + body + ['"'];
    hide NextTok, CanScan, ScanQuoted;
  }

  lemma {:induction false} NoMarks(s: string)
    requires '"' !in s && '\\' !in s
    ensures ScanQuoted(s, false) == Open
    decreases |s|
  {
    if s != "" {
      NoMarks(s[1..]);
    }
  }

  lemma {:induction false} EscapedIsOpen(a: string, b: string)
    requires '"' !in a && '\\' !in a && '"' !in b && '\\' !in b
    ensures ScanQuoted(a + ['\\', '"'] + b, false) == Open
    decreases |a|
  {
    var s := a + ['\\', '"'] + b;
    if a == "" {
      assert s[0] == '\\' && s[1..][0] == '"' && s[1..][1..] == b;
      NoMarks(b);
    } else {
      assert s[0] == a[0] && a[0] in a && s[1..] == a[1..] + ['\\', '"'] + b;
      EscapedIsOpen(a[1..], b);
    }
  }
}
