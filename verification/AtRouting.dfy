/** Where the modem's lines go: `processLine` with `addIntermediate`, and `reverseIntermediates`
    (mbm/mbm-ril/atchannel.c:266-430, 925-938, 976-1006).

    First as a function of the pending command, with what it means for whole exchanges, then as methods on
    the linked list that the reader builds newest first and the command thread turns round in place. */
module AtRouting {
  import opened Basics

  datatype CommandType = NO_RESULT | NUMERIC | SINGLELINE | MULTILINE

  datatype Final = Final(success: bool, line: string)

  /** The pending command; the intermediate responses are in the order of the list, newest first. */
  datatype Pending = Pending(kind: CommandType, prefix: string, pdu: Option<string>, intermediates: seq<string>,
      final: Option<Final>)

  /** A channel, with the lines handed to the unsolicited handler and the PDUs written so far. */
  datatype Channel = Channel(pending: Option<Pending>, unsolicited: seq<string>, pdus: seq<string>)

  const PROMPT := "> "

  predicate IsFinalResponseSuccess(line: string) {
    "OK" <= line || "CONNECT" <= line
  }

  predicate IsFinalResponseError(line: string) {
    || "ERROR" <= line || "+CMS ERROR:" <= line || "+CME ERROR:" <= line
    || "NO CARRIER" <= line || "NO ANSWER" <= line || "NO DIALTONE" <= line
  }

  predicate IsFinal(line: string) {
    IsFinalResponseSuccess(line) || IsFinalResponseError(line)
  }

  /** What a command of this kind takes for an intermediate response. */
  predicate Eligible(kind: CommandType, prefix: string, line: string) {
    match kind
    case NO_RESULT => false
    case NUMERIC => line != "" && '0' <= line[0] <= '9'
    case _ => prefix <= line
  }

  datatype Destination = ToHandler | ToIntermediates | ToFinal | ToPrompt

  function Route(c: Channel, line: string): Destination {
    match c.pending
    case None => ToHandler
    case Some(p) =>
      if IsFinal(line) then ToFinal
      else if p.pdu.Some? && line == PROMPT then ToPrompt
      else if Eligible(p.kind, p.prefix, line) && (p.kind == MULTILINE || p.intermediates == []) then ToIntermediates
      else ToHandler
  }

  function Process(c: Channel, line: string): Channel {
    match Route(c, line)
    case ToHandler => c.(unsolicited := c.unsolicited + [line])
    case ToIntermediates =>
      c.(pending := Some(c.pending.value.(intermediates := [line] + c.pending.value.intermediates)))
    case ToFinal =>
      c.(pending := Some(c.pending.value.(final := Some(Final(IsFinalResponseSuccess(line), line)))))
    case ToPrompt =>
      c.(pending := Some(c.pending.value.(pdu := None)), pdus := c.pdus + [c.pending.value.pdu.value])
  }

  function ProcessAll(c: Channel, lines: seq<string>): Channel {
    if lines == [] then c else Process(ProcessAll(c, lines[..|lines| - 1]), lines[|lines| - 1])
  }

  function Reverse<T>(s: seq<T>): (r: seq<T>)
    ensures |r| == |s| && forall i | 0 <= i < |s| :: r[i] == s[|s| - 1 - i]
  {
    if s == [] then [] else Reverse(s[1..]) + [s[0]]
  }

  lemma ReverseCons<T>(x: T, s: seq<T>)
    ensures Reverse([x] + s) == Reverse(s) + [x]
  {
    assert ([x] + s)[1..] == s;
  }

  lemma Snoc(rest: seq<string>, line: string)
    ensures var lines := rest + [line]; lines[..|lines| - 1] == rest && lines[|lines| - 1] == line && |lines| > 0
  {
  }

  // ----- exactly one destination

  /** The lines, in the order they came, that went to one destination. */
  function Routed(c: Channel, lines: seq<string>, d: Destination): seq<string> {
    if lines == [] then []
    else
      var rest := lines[..|lines| - 1];
      Routed(c, rest, d) + if Route(ProcessAll(c, rest), lines[|lines| - 1]) == d then [lines[|lines| - 1]] else []
  }

  function Last(s: seq<string>, otherwise: Option<Final>): Option<Final> {
    if s == [] then otherwise else Some(Final(IsFinalResponseSuccess(s[|s| - 1]), s[|s| - 1]))
  }

  /** What has come of the lines so far. */
  predicate Placed(c: Channel, lines: seq<string>, e: Channel) {
    && e.unsolicited == c.unsolicited + Routed(c, lines, ToHandler)
    && |e.pdus| == |c.pdus| + |Routed(c, lines, ToPrompt)|
    && (c.pending.Some? <==> e.pending.Some?)
    && (c.pending.Some? ==>
          && Reverse(e.pending.value.intermediates)
                == Reverse(c.pending.value.intermediates) + Routed(c, lines, ToIntermediates)
          && e.pending.value.final == Last(Routed(c, lines, ToFinal), c.pending.value.final))
    && |lines| == |Routed(c, lines, ToHandler)| + |Routed(c, lines, ToIntermediates)| + |Routed(c, lines, ToFinal)|
                + |Routed(c, lines, ToPrompt)|
  }

  /** Every line goes to one place, and every place gets just the lines that went there: the handler in their
      order, the list in their order once it is turned round; the last final response counts; and the PDU
      has gone out once for every prompt taken. Helper of `CommandGetsItsResponses`. */
  lemma {:induction false} EveryLineGoesToOnePlace(c: Channel, lines: seq<string>)
    ensures Placed(c, lines, ProcessAll(c, lines))
    decreases |lines|
  {
    hide *;
    RoutedParts(c, lines);
    if lines != [] {
      var rest, line := lines[..|lines| - 1], lines[|lines| - 1];
      EveryLineGoesToOnePlace(c, rest);
      OneMoreGoesToOnePlace(c, rest, line, ProcessAll(c, rest));
    }
  }

  lemma RoutedParts(c: Channel, lines: seq<string>)
    ensures lines == [] ==> Placed(c, lines, ProcessAll(c, lines))
    ensures lines != [] ==> ProcessAll(c, lines) == Process(ProcessAll(c, lines[..|lines| - 1]), lines[|lines| - 1])
    ensures lines != [] ==> lines == lines[..|lines| - 1] + [lines[|lines| - 1]]
  {
    hide Process, Route, Reverse;
    if lines == [] {
      assert c.unsolicited + [] == c.unsolicited;
      if c.pending.Some? {
        assert Reverse(c.pending.value.intermediates) + [] == Reverse(c.pending.value.intermediates);
      }
    }
  }

  lemma RoutedSnoc(c: Channel, rest: seq<string>, line: string, d: Destination)
    ensures Routed(c, rest + [line], d) == Routed(c, rest, d) + if Route(ProcessAll(c, rest), line) == d then [line]
        else []
  {
    hide Route, ProcessAll;
    Snoc(rest, line);
  }

  lemma OneMoreGoesToOnePlace(c: Channel, rest: seq<string>, line: string, mid: Channel)
    requires mid == ProcessAll(c, rest) && Placed(c, rest, mid)
    ensures Placed(c, rest + [line], Process(mid, line))
  {
    hide IsFinalResponseSuccess, Route, Reverse, Routed, ProcessAll;
    var d := Route(mid, line);
    RoutedSnoc(c, rest, line, ToHandler);
    RoutedSnoc(c, rest, line, ToIntermediates);
    RoutedSnoc(c, rest, line, ToFinal);
    RoutedSnoc(c, rest, line, ToPrompt);
    RoutesWhenPending(mid, line);
    Associate(c.unsolicited, Routed(c, rest, ToHandler), [line]);
    assert Routed(c, rest, ToIntermediates) + [] == Routed(c, rest, ToIntermediates);
    assert Routed(c, rest, ToHandler) + [] == Routed(c, rest, ToHandler);
    assert Routed(c, rest, ToFinal) + [] == Routed(c, rest, ToFinal);
    if d == ToIntermediates {
      ReverseCons(line, mid.pending.value.intermediates);
      Associate(Reverse(c.pending.value.intermediates), Routed(c, rest, ToIntermediates), [line]);
    }
  }

  lemma RoutesWhenPending(c: Channel, line: string)
    ensures c.pending.None? ==> Route(c, line) == ToHandler
    ensures Route(c, line) == ToPrompt ==> c.pending.value.pdu.Some?
  {
  }

  // ----- what a command gets

  function NotFinal(lines: seq<string>): seq<string> {
    if lines == [] then []
    else NotFinal(lines[..|lines| - 1]) + if IsFinal(lines[|lines| - 1]) then [] else [lines[|lines| - 1]]
  }

  /** All lines but the first prompt. */
  function AfterPrompt(lines: seq<string>): seq<string> {
    if lines == [] then []
    else
      var rest := lines[..|lines| - 1];
      AfterPrompt(rest) + if lines[|lines| - 1] == PROMPT && PROMPT !in rest then [] else [lines[|lines| - 1]]
  }

  function Choose(kind: CommandType, prefix: string, lines: seq<string>): seq<string> {
    if lines == [] then []
    else
      Choose(kind, prefix, lines[..|lines| - 1])
      + if Eligible(kind, prefix, lines[|lines| - 1]) then [lines[|lines| - 1]] else []
  }

  /** The responses to a command: of the lines that are neither final nor the prompt it waited for, those
      that it takes, or the first of them if it takes just one. */
  function Responses(kind: CommandType, prefix: string, pdu: Option<string>, lines: seq<string>): seq<string> {
    var others := NotFinal(lines);
    var chosen := Choose(kind, prefix, if pdu.Some? then AfterPrompt(others) else others);
    if kind == MULTILINE || chosen == [] then chosen else chosen[..1]
  }

  function Fresh(kind: CommandType, prefix: string, pdu: Option<string>): Pending {
    Pending(kind, prefix, pdu, [], None)
  }

  /** Where a command stands after some lines of an exchange. */
  predicate Stands(m: Channel, kind: CommandType, prefix: string, pdu: Option<string>, lines: seq<string>,
      before: seq<string>) {
    && m.pending.Some? && m.pending.value.kind == kind && m.pending.value.prefix == prefix
    && Reverse(m.pending.value.intermediates) == Responses(kind, prefix, pdu, lines)
    && m.pending.value.pdu == (if pdu.Some? && PROMPT in NotFinal(lines) then None else pdu)
    && m.pdus == before + (if pdu.Some? && PROMPT in NotFinal(lines) then [pdu.value] else [])
  }

  lemma PromptIsNotFinal()
    ensures !IsFinal(PROMPT)
  {
    assert PROMPT[0] == '>';
    assert "OK"[0] == 'O' && "CONNECT"[0] == 'C' && "ERROR"[0] == 'E' && "+CMS ERROR:"[0] == '+'
        && "+CME ERROR:"[0] == '+';
    assert "NO CARRIER"[0] == 'N' && "NO ANSWER"[0] == 'N' && "NO DIALTONE"[0] == 'N';
  }

  /** For every exchange: the command gets exactly its responses, in the order they arrived, and the PDU has
      been sent, once, exactly if there was a prompt. */
  lemma {:induction false} CommandGetsItsResponses(c: Channel, kind: CommandType, prefix: string, pdu: Option<string>,
      lines: seq<string>)
    requires c.pending == Some(Fresh(kind, prefix, pdu))
    ensures Stands(ProcessAll(c, lines), kind, prefix, pdu, lines, c.pdus)
    decreases |lines|
  {
    hide *;
    PromptIsNotFinal();
    RunParts(c, lines);
    if lines == [] {
      StandsAtStart(c, kind, prefix, pdu);
    } else {
      var rest, line := lines[..|lines| - 1], lines[|lines| - 1];
      CommandGetsItsResponses(c, kind, prefix, pdu, rest);
      OneMoreLine(ProcessAll(c, rest), kind, prefix, pdu, rest, line, c.pdus);
    }
  }

  lemma RunParts(c: Channel, lines: seq<string>)
    ensures lines == [] ==> ProcessAll(c, lines) == c
    ensures lines != [] ==> ProcessAll(c, lines) == Process(ProcessAll(c, lines[..|lines| - 1]), lines[|lines| - 1])
    ensures lines != [] ==> lines == lines[..|lines| - 1] + [lines[|lines| - 1]]
  {
    hide Process;
  }

  lemma StandsAtStart(c: Channel, kind: CommandType, prefix: string, pdu: Option<string>)
    requires c.pending == Some(Fresh(kind, prefix, pdu))
    ensures Stands(c, kind, prefix, pdu, [], c.pdus)
  {
    hide Eligible, IsFinal;
    ReverseEmpty([]);
    assert c.pdus + [] == c.pdus;
  }

  lemma NotFinalSnoc(rest: seq<string>, line: string)
    ensures NotFinal(rest + [line]) == NotFinal(rest) + if IsFinal(line) then [] else [line]
  {
    hide IsFinal;
    Snoc(rest, line);
  }

  lemma AfterPromptSnoc(rest: seq<string>, line: string)
    ensures AfterPrompt(rest + [line]) == AfterPrompt(rest) + if line == PROMPT && PROMPT !in rest then [] else [line]
  {
    Snoc(rest, line);
  }

  lemma ChooseSnoc(kind: CommandType, prefix: string, rest: seq<string>, line: string)
    ensures Choose(kind, prefix, rest + [line])
        == Choose(kind, prefix, rest) + if Eligible(kind, prefix, line) then [line] else []
  {
    hide Eligible;
    Snoc(rest, line);
  }

  /** The responses after one more line that is not final: `taken` says whether the line is a prompt that was
      waited for. */
  lemma ResponsesSnoc(kind: CommandType, prefix: string, pdu: Option<string>, rest: seq<string>, line: string)
    requires !IsFinal(line)
    ensures var r := Responses(kind, prefix, pdu, rest);
            var prompt := pdu.Some? && line == PROMPT && PROMPT !in NotFinal(rest);
            Responses(kind, prefix, pdu, rest + [line])
            == if !prompt && Eligible(kind, prefix, line) && (kind == MULTILINE || r == []) then r + [line] else r
  {
    var others := NotFinal(rest);
    NotFinalSnoc(rest, line);
    AfterPromptSnoc(others, line);
    var was := if pdu.Some? then AfterPrompt(others) else others;
    ChooseSnoc(kind, prefix, was, line);
    var chosen := Choose(kind, prefix, was);
    hide IsFinal, Eligible, NotFinal, AfterPrompt, Choose;
    assert was + [] == was && chosen + [] == chosen;
    if chosen == [] {
      assert chosen + [line] == [line] && [line][..1] == [line];
    } else {
      assert (chosen + [line])[..1] == chosen[..1];
    }
  }

  /** What a line does to a pending command, case by case. */
  lemma ProcessIs(m: Channel, line: string)
    requires m.pending.Some?
    ensures var p, e := m.pending.value, Process(m, line);
            && e.pending.Some?
            && var q := e.pending.value;
            && q.kind == p.kind && q.prefix == p.prefix
            && if IsFinal(line) then q.intermediates == p.intermediates && q.pdu == p.pdu && e.pdus == m.pdus
               else if p.pdu.Some? && line == PROMPT then
                 q.intermediates == p.intermediates && q.pdu == None && e.pdus == m.pdus + [p.pdu.value]
               else
                 && q.pdu == p.pdu && e.pdus == m.pdus
                 && q.intermediates == (if Eligible(p.kind, p.prefix, line)
                                           && (p.kind == MULTILINE || p.intermediates == [])
                                        then [line] + p.intermediates else p.intermediates)
  {
    hide IsFinal, IsFinalResponseSuccess, Eligible;
  }

  lemma ReverseEmpty(s: seq<string>)
    ensures Reverse(s) == [] <==> s == []
  {
  }

  lemma FinalChangesNothing(kind: CommandType, prefix: string, pdu: Option<string>, rest: seq<string>, line: string)
    requires IsFinal(line)
    ensures NotFinal(rest + [line]) == NotFinal(rest)
        && Responses(kind, prefix, pdu, rest + [line]) == Responses(kind, prefix, pdu, rest)
  {
    NotFinalSnoc(rest, line);
    hide IsFinal, NotFinal, Choose, AfterPrompt;
  }

  lemma OneMoreLine(m: Channel, kind: CommandType, prefix: string, pdu: Option<string>, rest: seq<string>,
      line: string, before: seq<string>)
    requires Stands(m, kind, prefix, pdu, rest, before) && !IsFinal(PROMPT)
    ensures Stands(Process(m, line), kind, prefix, pdu, rest + [line], before)
  {
    hide IsFinal, Eligible, NotFinal, Choose, AfterPrompt, Responses, Reverse, Process;
    ProcessIs(m, line);
    ReverseCons(line, m.pending.value.intermediates);
    ReverseEmpty(m.pending.value.intermediates);
    if IsFinal(line) {
      FinalChangesNothing(kind, prefix, pdu, rest, line);
    } else {
      NotFinalSnoc(rest, line);
      assert PROMPT in NotFinal(rest + [line]) <==> PROMPT in NotFinal(rest) || line == PROMPT;
      ResponsesSnoc(kind, prefix, pdu, rest, line);
    }
  }

  /** At most one response for the kinds that take one, none for the kind that takes none. */
  lemma HowManyResponses(kind: CommandType, prefix: string, pdu: Option<string>, lines: seq<string>)
    ensures kind == NUMERIC || kind == SINGLELINE ==> |Responses(kind, prefix, pdu, lines)| <= 1
    ensures kind == NO_RESULT ==> Responses(kind, prefix, pdu, lines) == []
  {
    if kind == NO_RESULT {
      var others := NotFinal(lines);
      NothingChosen(prefix, if pdu.Some? then AfterPrompt(others) else others);
    }
  }

  lemma {:induction false} NothingChosen(prefix: string, lines: seq<string>)
    ensures Choose(NO_RESULT, prefix, lines) == []
    decreases |lines|
  {
    if lines != [] {
      NothingChosen(prefix, lines[..|lines| - 1]);
    }
  }
}
