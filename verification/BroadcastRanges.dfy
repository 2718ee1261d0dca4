/** Cell-broadcast ranges (mbm/mbm-ril/u300-ril-messaging.c:315-393): how they are printed into a string of
    service ids and read out of one.

    `long` has 32 bits, as on the devices; `strtol` saturates. Service-id strings have no quotation marks. */
module BroadcastRanges {
  import opened Basics
  import opened AtTok

  const BROADCAST_MAX_RANGES_SUPPORTED := 10
  const LONG_MAX := 0x7FFF_FFFF
  const LONG_MIN := -0x8000_0000

  // ----- numbers as text

  predicate IsDigit(c: char) {
    '0' <= c <= '9'
  }

  function Digits(n: nat): (s: string)
    ensures s != "" && forall c <- s :: IsDigit(c)
  {
    if n < 10 then [(0x30 + n) as char] else Digits(n / 10) + [(0x30 + n % 10) as char]
  }

  /** `%d` */
  function Printed(n: int): string {
    if n < 0 then "-" + Digits(-n) else Digits(n)
  }

  /** The digits at the front of a text. */
  function LeadingDigits(s: string): (r: string)
    ensures |r| <= |s| && forall c <- r :: IsDigit(c)
  {
    if s == "" || !IsDigit(s[0]) then "" else [s[0]] + LeadingDigits(s[1..])
  }

  function ValueOf(digits: string): nat
    requires forall c <- digits :: IsDigit(c)
  {
    if digits == "" then 0
    else
      assert digits[|digits| - 1] in digits && IsDigit(digits[|digits| - 1]);
      assert forall c <- digits[..|digits| - 1] :: c in digits;
      ValueOf(digits[..|digits| - 1]) * 10 + (digits[|digits| - 1] as int - 0x30)
  }

  function Saturated(n: int): int {
    if n > LONG_MAX then LONG_MAX else if n < LONG_MIN then LONG_MIN else n
  }

  /** `strtol` in base 10; None if there is nothing to convert. */
  function StrToL(text: string): Option<int> {
    var s := SkipWhiteSpace(text);
    var negative := s != "" && s[0] == '-';
    var signed := negative || (s != "" && s[0] == '+');
    var digits := LeadingDigits(if signed then s[1..] else s);
    if digits == "" then None
    else
      var value: int := ValueOf(digits);
      Some(Saturated(if negative then -value else value))
  }

  lemma {:induction false} DigitsValue(n: nat)
    ensures ValueOf(Digits(n)) == n
    decreases n
  {
    var s := Digits(n);
    if n >= 10 {
      DigitsValue(n / 10);
      assert s[..|s| - 1] == Digits(n / 10) && s[|s| - 1] == (0x30 + n % 10) as char;
    } else {
      assert s[..|s| - 1] == "";
    }
  }

  lemma {:induction false} AllDigitsLead(s: string)
    requires forall c <- s :: IsDigit(c)
    ensures LeadingDigits(s) == s
    decreases |s|
  {
    if s != "" {
      assert s[0] in s && forall c <- s[1..] :: c in s;
      AllDigitsLead(s[1..]);
    }
  }

  lemma PrintedIsRead(n: nat)
    requires n <= LONG_MAX
    ensures StrToL(Digits(n)) == Some(n)
  {
    var s := Digits(n);
    assert s[0] in s;
    NothingToSkip(s);
    AllDigitsLead(s);
    DigitsValue(n);
    hide Digits, ValueOf, LeadingDigits, SkipWhiteSpace;
  }

  lemma NothingIsRead()
    ensures StrToL("") == None
  {
    NothingToSkip("");
    hide SkipWhiteSpace;
  }

  // ----- one range

  datatype Range = Range(from: int, to: int)

  datatype Config = Config(range: Range, selected: bool)

  /** "%d-%d" */
  function RangeText(r: Range): string {
    Printed(r.from) + "-" + Printed(r.to)
  }

  /** Dashes become commas. */
  function DashesToCommas(s: string): (r: string)
    ensures |r| == |s|
  {
    if s == "" then "" else [if s[0] == '-' then ',' else s[0]] + DashesToCommas(s[1..])
  }

  datatype Int = Int(value: Option<int>, cur: Option<string>)

  /** `at_tok_nextint` */
  function NextInt(cur: Option<string>): Int
    requires cur.Some? ==> QUOTE !in cur.value
  {
    NoQuotes(cur);
    if cur == None then Int(None, None)
    else
      var t := NextTok(cur);
      Int(if t.text == None then None else StrToL(t.text.value), t.cur)
  }

  /** Without quotation marks there always is a token, and what follows it is shorter. */
  lemma NoQuotes(cur: Option<string>)
    requires cur.Some? ==> QUOTE !in cur.value
    ensures CanScan(cur)
    ensures cur.Some? ==>
      var t := NextTok(cur);
      t.text.Some? && QUOTE !in t.text.value && (t.cur.Some? ==> QUOTE !in t.cur.value && |t.cur.value| < |cur.value|)
  {
    if cur.Some? {
      var s := SkipWhiteSpace(cur.value);
      SpaceFree(cur.value);
      hide SkipWhiteSpace, FirstComma, ScanQuoted;
      assert s != "" ==> s[0] in s;
    }
  }

  lemma {:induction false} SpaceFree(s: string)
    requires QUOTE !in s
    ensures QUOTE !in SkipWhiteSpace(s) && |SkipWhiteSpace(s)| <= |s|
    decreases |s|
  {
    if s != "" && IsSpace(s[0]) {
      SpaceFree(s[1..]);
    }
  }

  /** The two ids of a range; a range of one id has it for both. */
  function ReadRange(range: string): Option<Range>
    requires QUOTE !in range
  {
    var s := DashesToCommas(range);
    DashesFree(range);
    NoQuotes(Some(s));
    var from := NextInt(Some(s));
    if from.value == None then None
    else
      var to := NextInt(from.cur);
      Some(Range(from.value.value, if to.value == None then from.value.value else to.value.value))
  }

  lemma {:induction false} DashesFree(s: string)
    requires QUOTE !in s
    ensures QUOTE !in DashesToCommas(s)
    decreases |s|
  {
    if s != "" {
      DashesFree(s[1..]);
    }
  }

  /** What comes back of a range. */
  function Reported(r: Range): Option<Range> {
    if r.from < 0 then None else Some(Range(r.from, if r.to < 0 then r.from else r.to))
  }

  predicate IsInt(n: int) {
    LONG_MIN <= n <= LONG_MAX
  }

  lemma {:induction false} NoDashes(s: string)
    requires '-' !in s
    ensures DashesToCommas(s) == s
    decreases |s|
  {
    if s != "" {
      NoDashes(s[1..]);
    }
  }

  lemma {:induction false} DashesConcat(a: string, b: string)
    ensures DashesToCommas(a + b) == DashesToCommas(a) + DashesToCommas(b)
    decreases |a|
  {
    if a == "" {
      assert a + b == b;
    } else {
      assert (a + b)[1..] == a[1..] + b;
      DashesConcat(a[1..], b);
    }
  }

  lemma DigitsPlain(n: nat)
    ensures var s := Digits(n);
            s != "" && ',' !in s && '-' !in s && QUOTE !in s && s[0] != QUOTE && !IsSpace(s[0])
  {
    var s := Digits(n);
    assert s[0] in s;
    hide Digits;
  }

  lemma PrintedDashes(n: int)
    ensures DashesToCommas(Printed(n)) == if n < 0 then [','] + Digits(-n) else Digits(n)
    ensures ',' !in Printed(n) && QUOTE !in Printed(n) && Printed(n) != "" && !IsSpace(Printed(n)[0])
  {
    var d := Digits(if n < 0 then -n else n);
    DigitsPlain(if n < 0 then -n else n);
    NoDashes(d);
    hide Digits;
    if n < 0 {
      DashesConcat("-", d);
      assert DashesToCommas("-") == [','] + DashesToCommas("-"[1..]) == [','];
    }
  }

  lemma RangeTextIs(r: Range)
    ensures var t := RangeText(r);
            && ',' !in t && QUOTE !in t && t != "" && t[0] != QUOTE && !IsSpace(t[0])
            && DashesToCommas(t) == DashesToCommas(Printed(r.from)) + ([','] + DashesToCommas(Printed(r.to)))
  {
    PrintedDashes(r.from);
    PrintedDashes(r.to);
    var a, b := Printed(r.from), Printed(r.to);
    DashesConcat(a + "-", b);
    DashesConcat(a, "-");
    assert DashesToCommas("-") == [','] + DashesToCommas("-"[1..]) == [','];
    hide Printed, DashesToCommas;
    assert RangeText(r)[0] == a[0];
    Associate(DashesToCommas(a), [','], DashesToCommas(b));
  }

  /** An integer at the cursor, up to a comma or the end. */
  lemma IntAt(n: nat, rest: string)
    requires n <= LONG_MAX && QUOTE !in rest
    ensures QUOTE !in Digits(n) + ([','] + rest)
        && NextInt(Some(Digits(n) + ([','] + rest))) == Int(Some(n), Some(rest))
    ensures QUOTE !in Digits(n) && NextInt(Some(Digits(n))) == Int(Some(n), None)
  {
    DigitsPlain(n);
    PrintedIsRead(n);
    PlainInside(Digits(n), rest);
    PlainAtEnd(Digits(n));
    hide Digits, NextTok, StrToL, CanScan;
  }

  lemma NoIntAt(rest: string)
    requires QUOTE !in rest
    ensures QUOTE !in [','] + rest && NextInt(Some([','] + rest)) == Int(None, Some(rest))
  {
    NothingIsRead();
    PlainInside("", rest);
    assert "" + ([','] + rest) == [','] + rest;
    hide NextTok, StrToL, CanScan;
  }

  /** Reading back a printed range, negative ids included. */
  lemma RangeComesBack(r: Range)
    requires IsInt(r.from) && IsInt(r.to)
    ensures QUOTE !in RangeText(r) && ReadRange(RangeText(r)) == Reported(r)
  {
    RangeTextIs(r);
    PrintedDashes(r.from);
    PrintedDashes(r.to);
    var to := if r.to < 0 then [','] + Digits(-r.to) else Digits(r.to);
    DigitsPlain(if r.to < 0 then -r.to else r.to);
    assert QUOTE !in to;
    hide Digits, NextInt, RangeText, DashesToCommas, Printed;
    if r.from < 0 {
      var rest := Digits(-r.from) + ([','] + to);
      DigitsPlain(-r.from);
      NoIntAt(rest);
      Associate([','], Digits(-r.from), [','] + to);
    } else {
      IntAt(r.from, to);
      if r.to < 0 {
        NoIntAt(Digits(-r.to));
      } else {
        IntAt(r.to, "");
      }
    }
  }

  // ----- the whole configuration

  /** The selected ranges, in order. */
  function Selected(configs: seq<Config>): seq<Range> {
    if configs == [] then []
    else
      var last := |configs| - 1;
      Selected(configs[..last]) + if configs[last].selected then [configs[last].range] else []
  }

  /** What the first i entries of `count` contribute to the string of service ids. */
  function MidsOf(configs: seq<Config>, i: nat): string
    requires i <= |configs|
  {
    if i == 0 then ""
    else
      MidsOf(configs, i - 1)
      + if configs[i - 1].selected then RangeText(configs[i - 1].range) + (if i == |configs| then "" else ",") else ""
  }

  /** The loop that puts the string of service ids together; None if nothing is selected. */
  method JoinMids(configs: seq<Config>) returns (mids: Option<string>)
    ensures mids == if Selected(configs) == [] then None else Some(MidsOf(configs, |configs|))
  {
    hide RangeText;
    mids := None;
    var i := 0;
    while i < |configs|
      invariant 0 <= i <= |configs|
      invariant mids == if Selected(configs[..i]) == [] then None else Some(MidsOf(configs, i))
      invariant mids == None ==> MidsOf(configs, i) == ""
    {
      assert configs[..i + 1][..i] == configs[..i];
      if configs[i].selected {
        var tmp := mids;
        var text := RangeText(configs[i].range) + (if i == |configs| - 1 then "" else ",");
        mids := Some((if tmp.Some? then tmp.value else "") + text);
        assert "" + text == text;
      } else {
        assert MidsOf(configs, i) + "" == MidsOf(configs, i);
      }
      i := i + 1;
    }
    assert configs[..i] == configs;
  }

  /** The ranges in a string of service ids, when there are `count` already; None on a failure. */
  function ReadMids(mids: Option<string>, count: nat): Option<seq<Range>>
    requires mids.Some? ==> QUOTE !in mids.value
    decreases if mids.Some? then |mids.value| + 1 else 0
  {
    NoQuotes(mids);
    if mids == None then Some([])
    else if count >= BROADCAST_MAX_RANGES_SUPPORTED then Some([])
    else
      var t := NextTok(mids);
      match ReadRange(t.text.value)
      case None => None
      case Some(r) =>
        match ReadMids(t.cur, count + 1)
        case None => None
        case Some(more) => Some([r] + more)
  }

  /** The loop over the service ids; None is RIL_E_GENERIC_FAILURE. */
  method ReadRanges(ids: string) returns (configInfo: Option<seq<Range>>)
    requires QUOTE !in ids
    ensures configInfo == ReadMids(Some(ids), 0)
  {
    hide *;
    var mids: Option<string> := Some(ids);
    configInfo := Some([]);
    NothingBefore(ReadMids(mids, 0));
    while mids.Some?
      invariant mids.Some? ==> QUOTE !in mids.value
      invariant configInfo.Some? && |configInfo.value| <= BROADCAST_MAX_RANGES_SUPPORTED
      invariant ReadMids(Some(ids), 0) == After(configInfo.value, ReadMids(mids, |configInfo.value|))
      decreases if mids.Some? then |mids.value| + 1 else 0
    {
      var count := |configInfo.value|;
      NoQuotes(mids);
      ReadMidsIs(mids, count);
      var t := NextTok(mids);
      if count < BROADCAST_MAX_RANGES_SUPPORTED {
        var r := ReadRange(t.text.value);
        if r.None? {
          AfterIs(configInfo.value, None);
          return None;
        }
        AfterMore(configInfo.value, r.value, ReadMids(t.cur, count + 1));
        configInfo := Some(configInfo.value + [r.value]);
      } else {
        AfterIs(configInfo.value, Some([]));
        return;
      }
      mids := t.cur;
    }
    NoneLeft(|configInfo.value|);
    AfterIs(configInfo.value, Some([]));
  }

  /** Ranges read, and then those that are still read. */
  function After(infos: seq<Range>, more: Option<seq<Range>>): Option<seq<Range>> {
    if more == None then None else Some(infos + more.value)
  }

  lemma AfterIs(infos: seq<Range>, more: Option<seq<Range>>)
    ensures After(infos, more) == if more == None then None else Some(infos + more.value)
    ensures infos + [] == infos
  {
  }

  lemma NothingBefore(more: Option<seq<Range>>)
    ensures After([], more) == more && BROADCAST_MAX_RANGES_SUPPORTED == 10
  {
    if more.Some? {
      assert [] + more.value == more.value;
    }
  }

  lemma AfterMore(infos: seq<Range>, r: Range, more: Option<seq<Range>>)
    ensures After(infos, After([r], more)) == After(infos + [r], more)
  {
    if more.Some? {
      Associate(infos, [r], more.value);
    }
  }

  lemma ReadMidsIs(mids: Option<string>, count: nat)
    requires mids.Some? && QUOTE !in mids.value && CanScan(mids)
    requires var t := NextTok(mids); t.text.Some? && QUOTE !in t.text.value && (t.cur.Some? ==> QUOTE !in t.cur.value)
    ensures BROADCAST_MAX_RANGES_SUPPORTED == 10
    ensures var t := NextTok(mids);
            ReadMids(mids, count)
            == if count >= BROADCAST_MAX_RANGES_SUPPORTED then Some([])
               else match ReadRange(t.text.value) case None => None
                   case Some(r) => After([r], ReadMids(t.cur, count + 1))
  {
    hide NextTok, CanScan, ReadRange;
    if count < BROADCAST_MAX_RANGES_SUPPORTED && ReadRange(NextTok(mids).text.value).Some? {
      var more := ReadMids(NextTok(mids).cur, count + 1);
      assert After([ReadRange(NextTok(mids).text.value).value], more)
          == match more case None => None case Some(m) => Some([ReadRange(NextTok(mids).text.value).value] + m);
    }
  }

  lemma NoneLeft(count: nat)
    ensures ReadMids(None, count) == Some([])
  {
  }

  // ----- the round trip

  /** The ranges joined by commas. */
  function Joined(ranges: seq<Range>): string {
    if ranges == [] then ""
    else if |ranges| == 1 then RangeText(ranges[0])
    else RangeText(ranges[0]) + ([','] + Joined(ranges[1..]))
  }

  lemma {:induction false} JoinedSnoc(ranges: seq<Range>, r: Range)
    ensures Joined(ranges + [r]) == if ranges == [] then RangeText(r) else Joined(ranges) + ([','] + RangeText(r))
    decreases |ranges|
  {
    hide RangeText;
    var rs := ranges + [r];
    if |ranges| > 0 {
      assert rs[1..] == ranges[1..] + [r];
      JoinedSnoc(ranges[1..], r);
      var a := RangeText(ranges[0]) + [','];
      if |ranges| > 1 {
        Associate(RangeText(ranges[0]), [','], Joined(ranges[1..]));
        Associate(RangeText(ranges[0]), [','], Joined(ranges[1..]) + ([','] + RangeText(r)));
        Associate(a, Joined(ranges[1..]), [','] + RangeText(r));
      }
    }
  }

  /** The string that is sent: the selected ranges joined by commas, with one more comma at the end unless
      the last entry is selected. */
  lemma {:induction false} MidsAreJoined(configs: seq<Config>, i: nat)
    requires i <= |configs|
    ensures var sel := Selected(configs[..i]);
            MidsOf(configs, i) == Joined(sel) + if sel == []
                || (i == |configs| && configs[i - 1].selected) then "" else ","
    decreases i
  {
    hide RangeText;
    if i > 0 {
      MidsAreJoined(configs, i - 1);
      var was := Selected(configs[..i - 1]);
      assert configs[..i][..i - 1] == configs[..i - 1];
      var c := configs[i - 1];
      if c.selected {
        JoinedSnoc(was, c.range);
        var text, comma := RangeText(c.range), if i == |configs| then "" else ",";
        assert MidsOf(configs, i - 1) == Joined(was) + if was == [] then "" else ",";
        MoreMids(Joined(was), was == [], text, comma);
      } else {
        assert MidsOf(configs, i - 1) + "" == MidsOf(configs, i - 1);
        assert Selected(configs[..i]) == was + [] == was;
      }
    }
  }

  lemma MoreMids(joined: string, first: bool, text: string, comma: string)
    requires first ==> joined == ""
    ensures joined + (if first then "" else ",") + (text + comma)
         == (if first then text else joined + ([','] + text)) + comma
  {
    assert "," == [','];
  }

  /** The first n of the ranges as they come back; None if one of them does not. */
  function ReportedAll(ranges: seq<Range>, n: nat): Option<seq<Range>>
    decreases n
  {
    if n == 0 || ranges == [] then Some([])
    else
      match Reported(ranges[0])
      case None => None
      case Some(r) =>
        match ReportedAll(ranges[1..], n - 1)
        case None => None
        case Some(more) => Some([r] + more)
  }

  predicate Ints(ranges: seq<Range>) {
    forall r <- ranges :: IsInt(r.from) && IsInt(r.to)
  }

  lemma ReadOne(r: Range, tail: Option<string>)
    requires IsInt(r.from) && IsInt(r.to) && (tail.Some? ==> QUOTE !in tail.value)
    ensures var s := Some(RangeText(r) + if tail.None? then "" else [','] + tail.value);
            && QUOTE !in s.value && CanScan(s) && NextTok(s).text == Some(RangeText(r)) && NextTok(s).cur == tail
            && QUOTE !in RangeText(r) && ReadRange(RangeText(r)) == Reported(r)
  {
    RangeComesBack(r);
    RangeTextIs(r);
    var text := RangeText(r);
    hide RangeText, NextTok, CanScan, ReadRange, Reported;
    if tail.None? {
      PlainAtEnd(text);
      assert text + "" == text;
    } else {
      PlainInside(text, tail.value);
    }
  }

  /** What one more range at the front of a string makes of it. */
  lemma ReadMidsCons(r: Range, tail: Option<string>, count: nat)
    requires IsInt(r.from) && IsInt(r.to) && (tail.Some? ==> QUOTE !in tail.value)
    ensures var s := Some(RangeText(r) + if tail.None? then "" else [','] + tail.value);
            && QUOTE !in s.value
            && ReadMids(s, count)
               == if count >= BROADCAST_MAX_RANGES_SUPPORTED then Some([])
                  else if Reported(r) == None then None
                  else match ReadMids(tail, count + 1) case None => None
                      case Some(more) => Some([Reported(r).value] + more)
  {
    ReadOne(r, tail);
    hide RangeText, NextTok, CanScan, ReadRange, Reported;
  }

  lemma EmptyFails(count: nat)
    ensures ReadMids(Some(""), count) == if count >= BROADCAST_MAX_RANGES_SUPPORTED then Some([]) else None
  {
    NoQuotes(Some(""));
    NothingToSkip("");
    assert NextTok(Some("")) == Token(Some(""), None);
    NothingIsRead();
    assert DashesToCommas("") == "" && NextInt(Some("")).value == None;
    hide NextTok, CanScan, NextInt, SkipWhiteSpace;
  }

  /** Reading joined ranges, with or without a comma at the end. */
  lemma {:induction false} ReadJoined(ranges: seq<Range>, comma: bool, count: nat)
    requires ranges != [] && Ints(ranges) && count <= 10
    ensures QUOTE !in Ended(ranges, comma)
    ensures ReadMids(Some(Ended(ranges, comma)), count)
         == if comma && |ranges| < 10 - count then None else ReportedAll(ranges, 10 - count)
    decreases |ranges|
  {
    hide *;
    var r, rest := ranges[0], ranges[1..];
    IntsCons(ranges);
    EndedIs(ranges, comma);
    ReportedAllIs(ranges, 10 - count);
    NothingBefore(None);
    if rest == [] {
      ReadMidsCons(r, if comma then Some("") else None, count);
      EmptyFails(count + 1);
      NoneLeft(count + 1);
      if count < 10 {
        ReportedAllIs(rest, 10 - count - 1);
      }
    } else {
      ReadJoined(rest, comma, if count < 10 then count + 1 else count);
      ReadMidsCons(r, Some(Ended(rest, comma)), count);
    }
  }

  /** The joined ranges, with or without a comma at the end. */
  function Ended(ranges: seq<Range>, comma: bool): string {
    Joined(ranges) + if comma then "," else ""
  }

  lemma EndedIs(ranges: seq<Range>, comma: bool)
    requires ranges != []
    ensures |ranges| == 1 && !comma ==> Ended(ranges, comma) == RangeText(ranges[0]) + ""
    ensures |ranges| == 1 && comma ==> Ended(ranges, comma) == RangeText(ranges[0]) + ([','] + "") && QUOTE !in ""
    ensures |ranges| > 1 ==> Ended(ranges, comma) == RangeText(ranges[0]) + ([','] + Ended(ranges[1..], comma))
  {
    hide RangeText;
    var end := if comma then "," else "";
    var first, rest := RangeText(ranges[0]), Joined(ranges[1..]);
    assert [','] + "" == ",";
    Associate(first, [','], rest);
    Associate(first + [','], rest, end);
    Associate(first, [','], rest + end);
  }

  lemma IntsCons(ranges: seq<Range>)
    requires ranges != [] && Ints(ranges)
    ensures IsInt(ranges[0].from) && IsInt(ranges[0].to) && Ints(ranges[1..])
  {
    hide IsInt;
    assert ranges[0] in ranges && forall q <- ranges[1..] :: q in ranges;
  }

  lemma ReportedAllIs(ranges: seq<Range>, n: nat)
    ensures n == 0 || ranges == [] ==> ReportedAll(ranges, n) == Some([])
    ensures n > 0 && ranges != [] ==>
      ReportedAll(ranges, n)
      == if Reported(ranges[0]) == None then None
         else match ReportedAll(ranges[1..], n - 1) case None => None
             case Some(more) => Some([Reported(ranges[0]).value] + more)
  {
    hide Reported;
  }

  /** What the string of service ids reads as, for every configuration with something selected: the first
      ten selected ranges in order, if there are ten or the last entry of the configuration is selected;
      otherwise the comma at its end makes reading it fail. A negative first id fails, too, and a negative
      second id comes back as the first. */
  lemma MidsComeBack(configs: seq<Config>)
    requires Ints(Selected(configs)) && Selected(configs) != []
    ensures var sel, mids := Selected(configs), MidsOf(configs, |configs|);
            && QUOTE !in mids
            && ReadMids(Some(mids), 0)
               == if |sel| < BROADCAST_MAX_RANGES_SUPPORTED && !configs[|configs| - 1].selected then None
                  else ReportedAll(sel, BROADCAST_MAX_RANGES_SUPPORTED)
  {
    hide ReadMids, Joined, ReportedAll, MidsOf;
    assert BROADCAST_MAX_RANGES_SUPPORTED == 10;
    MidsAreJoined(configs, |configs|);
    assert configs[..|configs|] == configs;
    ReadJoined(Selected(configs), !configs[|configs| - 1].selected, 0);
  }

  predicate NoneNegative(ranges: seq<Range>) {
    forall r <- ranges :: r.from >= 0 && r.to >= 0
  }

  lemma NoneNegativeCons(r: Range, ranges: seq<Range>)
    ensures NoneNegative([r] + ranges) <==> r.from >= 0 && r.to >= 0 && NoneNegative(ranges)
  {
    assert forall q :: q in [r] + ranges <==> q == r || q in ranges;
  }

  function First(ranges: seq<Range>, n: nat): seq<Range> {
    if |ranges| < n then ranges else ranges[..n]
  }

  lemma FirstCons(ranges: seq<Range>, n: nat)
    ensures n > 0 && ranges != [] ==> First(ranges, n) == [ranges[0]] + First(ranges[1..], n - 1)
    ensures n == 0 || ranges == [] ==> First(ranges, n) == [] && NoneNegative([])
  {
  }

  /** So the first ten of the ranges come back as they were exactly if they have no negative ids. */
  lemma {:induction false} ExactlyIfNotNegative(ranges: seq<Range>, n: nat)
    ensures ReportedAll(ranges, n) == Some(First(ranges, n)) <==> NoneNegative(First(ranges, n))
    decreases n
  {
    hide NoneNegative, First;
    FirstCons(ranges, n);
    if n > 0 && ranges != [] {
      ExactlyIfNotNegative(ranges[1..], n - 1);
      NoneNegativeCons(ranges[0], First(ranges[1..], n - 1));
      var r, later := ranges[0], First(ranges[1..], n - 1);
      assert ([r] + later)[1..] == later;
    }
  }
}
