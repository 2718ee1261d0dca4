/** Which lines are what (mbm/mbm-ril/atchannel.c:281-335, 373-430), spelled out, and what an exchange ends
    with and leaves to the handler. */
module AtRoutingLaws {
  import opened Basics
  import opened AtRouting

  predicate Begins(line: string, beginning: string) {
    |beginning| <= |line| && line[..|beginning|] == beginning
  }

  predicate Succeeds(line: string) {
    Begins(line, "OK") || Begins(line, "CONNECT")
  }

  predicate Fails(line: string) {
    || Begins(line, "ERROR") || Begins(line, "+CMS ERROR:") || Begins(line, "+CME ERROR:")
    || Begins(line, "NO CARRIER") || Begins(line, "NO ANSWER") || Begins(line, "NO DIALTONE")
  }

  /** What a command of a kind takes. */
  predicate Takes(kind: CommandType, prefix: string, line: string) {
    match kind
    case NO_RESULT => false
    case NUMERIC => line != "" && line[0] in "0123456789"
    case SINGLELINE => Begins(line, prefix)
    case MULTILINE => Begins(line, prefix)
  }

  lemma BeginsIs(line: string, beginning: string)
    ensures beginning <= line <==> Begins(line, beginning)
  {
  }

  lemma SuccessIs(line: string)
    ensures IsFinalResponseSuccess(line) <==> Succeeds(line)
  {
    BeginsIs(line, "OK");
    BeginsIs(line, "CONNECT");
    hide Begins;
  }

  lemma ErrorIs(line: string)
    ensures IsFinalResponseError(line) <==> Fails(line)
  {
    BeginsIs(line, "ERROR");
    BeginsIs(line, "+CMS ERROR:");
    BeginsIs(line, "+CME ERROR:");
    BeginsIs(line, "NO CARRIER");
    BeginsIs(line, "NO ANSWER");
    BeginsIs(line, "NO DIALTONE");
    hide Begins;
  }

  lemma EligibleIs(kind: CommandType, prefix: string, line: string)
    ensures Eligible(kind, prefix, line) <==> Takes(kind, prefix, line)
  {
    BeginsIs(line, prefix);
    hide Begins;
  }

  /** Where one line goes, by what it is and what is pending. */
  lemma OneLine(c: Channel, line: string)
    ensures c.pending == None ==> Process(c, line) == c.(unsolicited := c.unsolicited + [line])
    ensures c.pending.Some? && Succeeds(line) ==>
              Process(c, line) == c.(pending := Some(c.pending.value.(final := Some(Final(true, line)))))
    ensures c.pending.Some? && !Succeeds(line) && Fails(line) ==>
              Process(c, line) == c.(pending := Some(c.pending.value.(final := Some(Final(false, line)))))
    ensures c.pending.Some? && !Succeeds(line) && !Fails(line) ==>
      var p := c.pending.value;
      Process(c, line)
      == if line == "> " && p.pdu.Some? then
           c.(pending := Some(p.(pdu := None)), pdus := c.pdus + [p.pdu.value])
         else if Takes(p.kind, p.prefix, line) && (p.kind == MULTILINE || p.intermediates == []) then
           c.(pending := Some(p.(intermediates := [line] + p.intermediates)))
         else c.(unsolicited := c.unsolicited + [line])
  {
    SuccessIs(line);
    ErrorIs(line);
    if c.pending.Some? {
      EligibleIs(c.pending.value.kind, c.pending.value.prefix, line);
    }
    hide Succeeds, Fails, Takes, IsFinalResponseSuccess, IsFinalResponseError, Eligible;
  }

  /** The final response of an exchange: the last line that is one, and whether it is a success. */
  function FinalOf(lines: seq<string>): Option<Final> {
    if lines == [] then None
    else
      var line := lines[|lines| - 1];
      if Succeeds(line) then Some(Final(true, line))
      else if Fails(line) then Some(Final(false, line))
      else FinalOf(lines[..|lines| - 1])
  }

  lemma {:induction false} FinalResponse(c: Channel, lines: seq<string>)
    requires c.pending.Some? && c.pending.value.final == None
    ensures ProcessAll(c, lines).pending.Some? && ProcessAll(c, lines).pending.value.final == FinalOf(lines)
    decreases |lines|
  {
    hide Process, Succeeds, Fails, Takes;
    if lines != [] {
      var rest, line := lines[..|lines| - 1], lines[|lines| - 1];
      FinalResponse(c, rest);
      OneLine(ProcessAll(c, rest), line);
    }
  }

  /** What is left to the handler: all lines but the final ones, the first prompt if there is a PDU to be sent, and
      the responses. */
  function LeftOver(kind: CommandType, prefix: string, pdu: Option<string>, lines: seq<string>): seq<string> {
    if lines == [] then []
    else
      var rest, line := lines[..|lines| - 1], lines[|lines| - 1];
      LeftOver(kind, prefix, pdu, rest)
      + if Succeeds(line) || Fails(line) || (pdu.Some? && line == "> " && "> " !in rest)
           || |Responses(kind, prefix, pdu, lines)| > |Responses(kind, prefix, pdu, rest)| then []
        else [line]
  }

  lemma {:induction false} PromptSeen(lines: seq<string>)
    ensures PROMPT in NotFinal(lines) <==> "> " in lines
    decreases |lines|
  {
    PromptIsNotFinal();
    hide IsFinal;
    if lines != [] {
      PromptSeen(lines[..|lines| - 1]);
      assert lines == lines[..|lines| - 1] + [lines[|lines| - 1]];
    }
  }

  /** The handler gets exactly that, in order. */
  lemma {:induction false} HandlerGetsTheRest(c: Channel, kind: CommandType, prefix: string, pdu: Option<string>,
      lines: seq<string>)
    requires c.pending == Some(Fresh(kind, prefix, pdu))
    ensures ProcessAll(c, lines).unsolicited == c.unsolicited + LeftOver(kind, prefix, pdu, lines)
    decreases |lines|
  {
    hide *;
    RunParts(c, lines);
    LeftOverIs(kind, prefix, pdu, lines);
    if lines == [] {
      assert c.unsolicited + [] == c.unsolicited;
    } else {
      var rest, line := lines[..|lines| - 1], lines[|lines| - 1];
      HandlerGetsTheRest(c, kind, prefix, pdu, rest);
      CommandGetsItsResponses(c, kind, prefix, pdu, rest);
      CommandGetsItsResponses(c, kind, prefix, pdu, lines);
      PromptSeen(rest);
      OneLeft(ProcessAll(c, rest), kind, prefix, pdu, rest, line, c.pdus);
      Associate(c.unsolicited, LeftOver(kind, prefix, pdu, rest), [line]);
      var left := LeftOver(kind, prefix, pdu, rest);
      assert c.unsolicited + left + [] == c.unsolicited + left && left + [] == left;
    }
  }

  lemma LeftOverIs(kind: CommandType, prefix: string, pdu: Option<string>, lines: seq<string>)
    ensures lines == [] ==> LeftOver(kind, prefix, pdu, lines) == []
    ensures lines != [] ==>
      var rest, line := lines[..|lines| - 1], lines[|lines| - 1];
      LeftOver(kind, prefix, pdu, lines)
      == LeftOver(kind, prefix, pdu, rest)
         + if Succeeds(line) || Fails(line) || (pdu.Some? && line == "> " && "> " !in rest)
              || |Responses(kind, prefix, pdu, lines)| > |Responses(kind, prefix, pdu, rest)| then []
           else [line]
  {
    hide Succeeds, Fails, Responses;
  }

  lemma OneLeft(m: Channel, kind: CommandType, prefix: string, pdu: Option<string>, rest: seq<string>, line: string,
      before: seq<string>)
    requires Stands(m, kind, prefix, pdu, rest, before) && (PROMPT in NotFinal(rest) <==> "> " in rest)
    requires Stands(Process(m, line), kind, prefix, pdu, rest + [line], before)
    ensures Process(m, line).unsolicited
         == m.unsolicited
            + if Succeeds(line) || Fails(line) || (pdu.Some? && line == "> " && "> " !in rest)
                 || |Responses(kind, prefix, pdu, rest + [line])| > |Responses(kind, prefix, pdu, rest)| then []
              else [line]
  {
    OneLine(m, line);
    assert m.unsolicited + [] == m.unsolicited;
    hide Succeeds, Fails, Takes, NotFinal, Process, Responses;
  }
}
