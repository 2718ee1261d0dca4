/** Setting and getting the cell-broadcast configuration (mbm/mbm-ril/u300-ril-messaging.c:271-412): from
    the entries to the command that leaves the device, and from what the modem reports to the entries. */
module BroadcastConfig {
  import opened Basics
  import opened AtTok
  import opened AtCommandLock
  import opened BroadcastRanges

  const SETTING := "AT+CSCB="
  const IDS_THAT_FIT := 499

  /** The parameters of the command, before they are cut to the size of the buffer. */
  function Parameters(mids: string): string {
    "0," + ([QUOTE] + mids + [QUOTE])
  }

  /** The command that is sent; None if nothing is selected, and then there is none. */
  function Command(configs: seq<Config>): Option<string> {
    if Selected(configs) == [] then None
    else Some(Formatted(SETTING + Parameters(MidsOf(configs, |configs|))))
  }

  method RequestGSMSetBroadcastSMSConfig(configs: seq<Config>) returns (command: Option<string>)
    ensures command == Command(configs)
  {
    hide MidsOf, Selected, Formatted, Parameters;
    var mids := JoinMids(configs);
    command := None;
    if mids.Some? {
      command := Some(Formatted(SETTING + Parameters(mids.value)));
    }
  }

  /** The parameters a command sets. The modem stores them and reports them when it is asked. */
  function Report(command: string): string
    requires |SETTING| <= |command|
  {
    command[|SETTING|..]
  }

  /** The program may read this report: no quoted string ends in a lone backslash, and the service ids have
      no quotation marks. */
  predicate Readable(report: string) {
    && CanScan(Some(report))
    && var ids := NextTok(Some(report)).cur;
       CanScan(ids) && (NextTok(ids).text.Some? ==> QUOTE !in NextTok(ids).text.value)
  }

  /** The entries in a report; None is a failure. */
  function Got(report: string): Option<seq<Range>>
    requires Readable(report)
  {
    var mode := NextTok(Some(report));
    if mode.text == None || StrToL(mode.text.value) == None then None
    else
      var ids := NextTok(mode.cur);
      if ids.text == None then None else ReadMids(ids.text, 0)
  }

  method RequestGSMGetBroadcastSMSConfig(report: string) returns (configInfo: Option<seq<Range>>)
    requires Readable(report)
    ensures configInfo == Got(report)
  {
    hide NextTok, CanScan, StrToL, ReadMids;
    var mode := NextTok(Some(report));
    if mode.text == None || StrToL(mode.text.value) == None {
      return None;
    }
    var ids := NextTok(mode.cur);
    if ids.text == None {
      return None;
    }
    configInfo := ReadRanges(ids.text.value);
  }

  // ----- what the strings are made of

  predicate IsIdChar(c: char) {
    IsDigit(c) || c == '-' || c == ','
  }

  predicate IsIdText(s: string) {
    forall c <- s :: IsIdChar(c)
  }

  lemma IdTexts(a: string, b: string)
    ensures IsIdText(a + b) <==> IsIdText(a) && IsIdText(b)
    ensures IsIdText("") && IsIdText("-") && IsIdText(",")
  {
    assert forall c <- a + b :: c in a || c in b;
    assert (forall c <- a :: c in a + b) && forall c <- b :: c in a + b;
  }

  lemma PrintedIsIdText(n: int)
    ensures IsIdText(Printed(n))
  {
    hide Digits;
  }

  lemma RangeTextIsIdText(r: Range)
    ensures IsIdText(RangeText(r))
  {
    PrintedIsIdText(r.from);
    PrintedIsIdText(r.to);
    IdTexts(Printed(r.from), "-");
    IdTexts(Printed(r.from) + "-", Printed(r.to));
    hide IsIdText, Printed;
  }

  lemma {:induction false} MidsAreIdText(configs: seq<Config>, i: nat)
    requires i <= |configs|
    ensures IsIdText(MidsOf(configs, i))
    decreases i
  {
    hide RangeText, IsIdText;
    IdTexts("", "");
    if i > 0 {
      MidsAreIdText(configs, i - 1);
      var text, comma := RangeText(configs[i - 1].range), if i == |configs| then "" else ",";
      RangeTextIsIdText(configs[i - 1].range);
      IdTexts(text, comma);
      IdTexts(MidsOf(configs, i - 1), text + comma);
      IdTexts(MidsOf(configs, i - 1), "");
    }
  }

  lemma {:induction false} PlainIsOpen(s: string)
    requires QUOTE !in s && BACKSLASH !in s
    ensures ScanQuoted(s, false) == Open
    decreases |s|
  {
    if s != "" {
      PlainIsOpen(s[1..]);
    }
  }

  /** No service id text is in the way of the scan for the closing quotation mark. */
  lemma IdTextIsOpen(s: string)
    requires IsIdText(s)
    ensures QUOTE !in s && ScanQuoted(s, false) == Open
  {
    assert !IsIdChar(QUOTE) && !IsIdChar(BACKSLASH);
    PlainIsOpen(s);
  }

  // ----- the report

  lemma ModeIsZero(rest: string)
    ensures var cur := Some("0," + rest); CanScan(cur) && NextTok(cur) == Token(Some("0"), Some(rest))
    ensures StrToL("0") == Some(0)
  {
    PlainInside("0", rest);
    assert "0" + ([','] + rest) == "0," + rest;
    PrintedIsRead(0);
    assert Digits(0) == "0";
    hide NextTok, CanScan, StrToL, Digits;
  }

  /** A quotation mark that is never closed is no string. */
  lemma UnclosedToken(s: string)
    requires ScanQuoted(s, false) == Open
    ensures var cur := Some([QUOTE] + s); CanScan(cur) && NextTok(cur).text == None
  {
    NothingToSkip([QUOTE] + s);
    assert ([QUOTE] + s)[1..] == s;
    hide SkipWhiteSpace, ScanQuoted;
  }

  /** The report of a command that was not cut off. */
  lemma WholeReport(mids: string)
    requires IsIdText(mids)
    ensures var report := Parameters(mids); Readable(report) && Got(report) == ReadMids(Some(mids), 0)
  {
    IdTextIsOpen(mids);
    var rest := [QUOTE] + mids + [QUOTE];
    ModeIsZero(rest);
    QuotedComesBack(mids, "", "");
    assert rest + "" == rest;
    hide NextTok, CanScan, StrToL, ReadMids, ScanQuoted, IsIdText;
  }

  /** The report of a command that was: its service ids are cut off somewhere, and the string is not closed. */
  lemma CutReport(mids: string, n: nat)
    requires IsIdText(mids) && n <= |mids|
    ensures var report := "0," + ([QUOTE] + mids[..n]); Readable(report) && Got(report) == None
  {
    assert mids == mids[..n] + mids[n..];
    IdTexts(mids[..n], mids[n..]);
    IdTextIsOpen(mids[..n]);
    ModeIsZero([QUOTE] + mids[..n]);
    UnclosedToken(mids[..n]);
    hide NextTok, StrToL, ReadMids, ScanQuoted, IsIdText;
    var cur := NextTok(Some("0," + ([QUOTE] + mids[..n]))).cur;
    assert cur == Some([QUOTE] + mids[..n]);
  }

  /** What the modem is told: the parameters if the service ids fit, and else what fits of them. */
  lemma ReportIs(mids: string)
    ensures var command := Formatted(SETTING + Parameters(mids));
            && |SETTING| <= |command|
            && Report(command) == if |mids| <= IDS_THAT_FIT then Parameters(mids)
                  else "0," + ([QUOTE] + mids[..IDS_THAT_FIT + 1])
  {
    var whole := SETTING + Parameters(mids);
    assert |SETTING| == 8 && |whole| == 8 + 2 + 1 + |mids| + 1;
    if |mids| <= IDS_THAT_FIT {
      assert whole[|SETTING|..] == Parameters(mids);
    } else {
      var n := IDS_THAT_FIT + 1;
      assert mids == mids[..n] + mids[n..];
      assert whole == SETTING + ("0," + ([QUOTE] + mids[..n])) + (mids[n..] + [QUOTE]);
      assert whole[..BUFFSIZE - 1] == SETTING + ("0," + ([QUOTE] + mids[..n]));
    }
  }

  // ----- the round trip

  /** Setting a configuration and then getting it; None is a failure of either. */
  function SetAndGot(configs: seq<Config>): Option<seq<Range>> {
    var command := Command(configs);
    ReportIsReadable(configs);
    if command == None then None else Got(Report(command.value))
  }

  lemma ReportIsReadable(configs: seq<Config>)
    ensures Selected(configs) != [] ==>
      var mids, command := MidsOf(configs, |configs|), Command(configs).value;
      && |SETTING| <= |command| && Readable(Report(command)) && QUOTE !in mids
      && Got(Report(command)) == if |mids| <= IDS_THAT_FIT then ReadMids(Some(mids), 0) else None
  {
    var mids := MidsOf(configs, |configs|);
    hide Readable, Got, ReadMids, Formatted, Parameters, IsIdText, MidsOf, Report;
    MidsAreIdText(configs, |configs|);
    IdTextIsOpen(mids);
    ReportIs(mids);
    WholeReport(mids);
    if |mids| > IDS_THAT_FIT {
      CutReport(mids, IDS_THAT_FIT + 1);
    }
  }

  /** A configuration's service ids fit into the command, and its last entry is selected unless ten are. */
  predicate ComesBack(configs: seq<Config>) {
    && Selected(configs) != [] && |MidsOf(configs, |configs|)| <= IDS_THAT_FIT
    && (|Selected(configs)| < BROADCAST_MAX_RANGES_SUPPORTED ==> configs[|configs| - 1].selected)
  }

  /** What comes back of a configuration, whatever it is. */
  lemma RoundTrip(configs: seq<Config>)
    requires Ints(Selected(configs))
    ensures SetAndGot(configs)
         == if ComesBack(configs) then ReportedAll(Selected(configs), BROADCAST_MAX_RANGES_SUPPORTED) else None
  {
    ReportIsReadable(configs);
    if Selected(configs) != [] {
      MidsComeBack(configs);
    }
    hide ReadMids, MidsOf, ReportedAll, Formatted, Parameters, Readable, Got, Report;
  }

  /** The first ten selected ranges come back as they were exactly if the service ids fit, ten entries or the
      last are selected, and none of the ten has a negative id. */
  lemma ComesBackExactly(configs: seq<Config>)
    requires Ints(Selected(configs))
    ensures var ten := First(Selected(configs), BROADCAST_MAX_RANGES_SUPPORTED);
            SetAndGot(configs) == Some(ten) <==> ComesBack(configs) && NoneNegative(ten)
  {
    RoundTrip(configs);
    ExactlyIfNotNegative(Selected(configs), BROADCAST_MAX_RANGES_SUPPORTED);
    hide SetAndGot, ComesBack, NoneNegative, First, ReportedAll;
  }

  lemma {:induction false} DigitsLength(n: nat, k: nat)
    requires n < Power10(k) && k > 0
    ensures |Digits(n)| <= k
    decreases k
  {
    if n >= 10 {
      DigitsLength(n / 10, k - 1);
    }
  }

  function Power10(k: nat): nat {
    if k == 0 then 1 else 10 * Power10(k - 1)
  }

  /** At most twenty selected entries always fit. */
  lemma {:induction false} TwentyFit(configs: seq<Config>, i: nat)
    requires i <= |configs| && Ints(Selected(configs[..i]))
    ensures |MidsOf(configs, i)| <= 24 * |Selected(configs[..i])|
    ensures |Selected(configs[..i])| <= 20 ==> |MidsOf(configs, i)| <= IDS_THAT_FIT
    decreases i
  {
    hide RangeText, IsInt;
    if i > 0 {
      assert configs[..i][..i - 1] == configs[..i - 1];
      var before, c := Selected(configs[..i - 1]), configs[i - 1];
      if c.selected {
        assert c.range in before + [c.range] && forall r <- before :: r in before + [c.range];
        RangeTextLength(c.range);
      } else {
        assert before + [] == before;
      }
      TwentyFit(configs, i - 1);
    }
  }

  lemma RangeTextLength(r: Range)
    requires IsInt(r.from) && IsInt(r.to)
    ensures |RangeText(r)| <= 23
  {
    assert Power10(10) == 10000000000 by {
      assert Power10(5) == 100000;
    }
    DigitsLength(if r.from < 0 then -r.from else r.from, 10);
    DigitsLength(if r.to < 0 then -r.to else r.to, 10);
    hide Digits;
  }

  // ----- a configuration that is too long

  /** n entries, all selected. */
  function Wide(n: nat): seq<Config> {
    seq(n, _ => Config(Range(10000, 20000), true))
  }

  lemma {:induction false} WideIs(n: nat, i: nat)
    requires i <= n
    ensures |Selected(Wide(n)[..i])| == i && (forall r <- Selected(Wide(n)[..i]) :: r == Range(10000, 20000))
    ensures |MidsOf(Wide(n), i)| == if i == n && n > 0 then 12 * i - 1 else 12 * i
    decreases i
  {
    hide RangeText;
    WideText();
    if i > 0 {
      WideIs(n, i - 1);
      assert Wide(n)[..i][..i - 1] == Wide(n)[..i - 1];
    }
  }

  lemma WideText()
    ensures |RangeText(Range(10000, 20000))| == 11
  {
    FiveDigits(10000);
    FiveDigits(20000);
  }

  lemma FiveDigits(n: nat)
    requires 10000 <= n <= 99999
    ensures |Digits(n)| == 5
  {
    assert |Digits(n / 10000)| == 1;
    assert |Digits(n / 1000)| == 2;
    assert |Digits(n / 100)| == 3;
    assert |Digits(n / 10)| == 4;
  }

  /** With forty-two entries, all selected and none negative, nothing comes back. */
  lemma TooLong()
    ensures var configs := Wide(42);
            && Ints(Selected(configs)) && |Selected(configs)| == 42 && configs[41].selected
            && NoneNegative(Selected(configs)) && SetAndGot(configs) == None
  {
    var configs := Wide(42);
    assert configs[..42] == configs;
    WideIs(42, 42);
    RoundTrip(configs);
    hide Wide, Selected, MidsOf, SetAndGot;
  }

  // ----- the characters that matter

  /** The command of a configuration whose service ids fit, and what is left of a longer one. */
  lemma CommandAsWritten(configs: seq<Config>)
    requires Selected(configs) != []
    ensures var mids, command := MidsOf(configs, |configs|), Command(configs);
            && command.Some?
            && (|mids| <= 499 ==> command.value == "AT+CSCB=0,\"" + mids + "\"")
            && (|mids| > 499 ==> command.value == ("AT+CSCB=0,\"" + mids)[..511])
  {
    var mids := MidsOf(configs, |configs|);
    hide MidsOf;
    var whole := SETTING + Parameters(mids);
    assert whole == "AT+CSCB=0,\"" + mids + "\"";
    if |mids| > 499 {
      assert whole[..511] == ("AT+CSCB=0,\"" + mids)[..511];
    }
  }

  /** How a range is written, and which entries are. */
  lemma RangesAsWritten(m: nat, n: nat, c: Config, d: Config)
    requires m < 10 && n < 10
    ensures RangeText(Range(m, n)) == ["0123456789"[m], '-', "0123456789"[n]]
    ensures Selected([c, d]) == (if c.selected then [c.range] else []) + (if d.selected then [d.range] else [])
  {
    assert Printed(m) == ["0123456789"[m]] && Printed(n) == ["0123456789"[n]];
    assert [c, d][..1] == [c] && [c][..0] == [];
    assert Selected([]) == [] && Selected([c]) == if c.selected then [c.range] else [];
    hide Printed;
  }

  /** What a long of 32 bits can hold. */
  function Clamped(n: int): int {
    if n > 0x7FFF_FFFF then 0x7FFF_FFFF else if n < -0x8000_0000 then -0x8000_0000 else n
  }

  /** What `strtol` makes of a number: blanks before it and a plus sign do not matter, a minus sign does, and what
      a long cannot hold becomes the largest or smallest that it can. */
  lemma NumbersAsRead(n: nat)
    ensures StrToL(Digits(n)) == StrToL(" " + Digits(n)) == StrToL("+" + Digits(n)) == Some(Clamped(n))
    ensures StrToL("-" + Digits(n)) == Some(Clamped(-(n as int)))
  {
    hide *;
    DigitsRead(n);
    Blank(Digits(n));
    SameBehindBlanks(" " + Digits(n), Digits(n));
    SignedRead("+", n);
    SignedRead("-", n);
  }

  lemma DigitsRead(n: nat)
    ensures StrToL(Digits(n)) == Some(Clamped(n))
  {
    var d := Digits(n);
    FirstDigit(n);
    AllDigitsLead(d);
    DigitsValue(n);
    NothingToSkip(d);
    hide Digits, SkipWhiteSpace, LeadingDigits, ValueOf, IsDigit;
  }

  lemma SignedRead(sign: string, n: nat)
    requires sign == "+" || sign == "-"
    ensures StrToL(sign + Digits(n)) == Some(Clamped(if sign == "+" then n else -(n as int)))
  {
    hide *;
    var d := Digits(n);
    FirstDigit(n);
    AllDigitsLead(d);
    DigitsValue(n);
    SignedNumber(sign, d);
    ReadIs(sign, d);
  }

  /** What is read off a text, by how it goes on behind the blanks. */
  lemma ReadIs(sign: string, d: string)
    requires sign == "+" || sign == "-"
    requires SkipWhiteSpace(sign + d) == sign + d && (sign + d)[1..] == d && LeadingDigits(d) == d != ""
    requires (sign + d)[0] == sign[0]
    ensures var v: int := ValueOf(LeadingDigits(d));
            StrToL(sign + d) == Some(Clamped(if sign == "+" then v else -v))
  {
    hide SkipWhiteSpace, LeadingDigits, ValueOf;
  }

  lemma SameBehindBlanks(a: string, b: string)
    requires SkipWhiteSpace(a) == SkipWhiteSpace(b)
    ensures StrToL(a) == StrToL(b)
  {
    hide SkipWhiteSpace, LeadingDigits, ValueOf;
  }

  lemma FirstDigit(n: nat)
    ensures var d := Digits(n);
            && d != "" && d[0] != '+' && d[0] != '-' && !IsSpace(d[0]) && forall c <- d :: IsDigit(c)
  {
    DigitsPlain(n);
    var d := Digits(n);
    assert d[0] in d && IsDigit(d[0]);
    hide Digits;
  }

  lemma Blank(s: string)
    ensures SkipWhiteSpace(" " + s) == SkipWhiteSpace(s)
  {
    assert (" " + s)[1..] == s;
  }

  lemma SignedNumber(sign: string, d: string)
    requires sign == "+" || sign == "-"
    ensures var s := sign + d; SkipWhiteSpace(s) == s && s[0] == sign[0] && s[1..] == d
  {
    NothingToSkip(sign + d);
    hide SkipWhiteSpace;
  }

  /** A report whose mode is no number is not read. */
  lemma ModeIsNeeded(rest: string)
    requires Readable("x," + rest)
    ensures Got("x," + rest) == None
  {
    PlainInside("x", rest);
    assert "x" + ([','] + rest) == "x," + rest;
    NothingToSkip("x");
    assert LeadingDigits("x") == "";
    hide NextTok, CanScan, SkipWhiteSpace;
  }
}
