/** `processLine`, `addIntermediate` and `reverseIntermediates` on their linked list
    (mbm/mbm-ril/atchannel.c:266-280, 373-430, 925-938, 976-1006). */
module AtResponseList {
  import opened Basics
  import opened AtRouting
  import opened AtRoutingLaws
  import opened Lists

  lemma {:induction false} ValuesReverse(nodes: seq<Node<string>>)
    ensures ValuesOf(Reverse(nodes)) == Reverse(ValuesOf(nodes))
    decreases |nodes|
  {
    if nodes != [] {
      hide *;
      var n, rest := nodes[0], nodes[1..];
      assert nodes == [n] + rest;
      ReverseCons(n, rest);
      ValuesSnoc(Reverse(rest), n);
      ValuesCons(n, rest);
      ReverseCons(n.value, ValuesOf(rest));
      ValuesReverse(rest);
    }
  }

  lemma ValuesCons(n: Node<string>, rest: seq<Node<string>>)
    ensures ValuesOf([n] + rest) == [n.value] + ValuesOf(rest)
  {
  }

  class ATResponse {
    var success: bool
    var finalResponse: Option<string>
    var intermediates: Node?<string>
    ghost var nodes: seq<Node<string>>

    ghost predicate Valid()
      reads this, nodes
    {
      Chained(intermediates, nodes)
    }

    constructor ()
      ensures Valid() && !success && finalResponse == None && nodes == []
    {
      success, finalResponse, intermediates, nodes := false, None, null, [];
    }

    ghost function FinalLine(): Option<Final>
      reads this
    {
      match finalResponse
      case None => None
      case Some(line) => Some(Final(success, line))
    }

    /** A node that is not in the list becomes its first. */
    method Push(n: Node<string>)
      requires Valid() && n !in nodes
      modifies this`intermediates, this`nodes, n
      ensures Valid() && nodes == [n] + old(nodes)
    {
      n.next := intermediates;
      intermediates := n;
      nodes := [n] + nodes;
    }

    /** Turns the list round in place. */
    method ReverseIntermediates()
      requires Valid()
      modifies this`intermediates, this`nodes, nodes
      ensures Valid() && nodes == Reverse(old(nodes)) && ValuesOf(nodes) == Reverse(ValuesOf(old(nodes)))
    {
      hide ValuesOf;
      ValuesReverse(nodes);
      hide Reverse;
      var current := intermediates;
      ghost var rest := nodes;
      intermediates, nodes := null, [];
      assert Reverse(rest) + [] == Reverse(rest);
      while current != null
        invariant Chained(current, rest) && Valid()
        invariant forall n <- nodes :: n !in rest
        invariant Reverse(old(nodes)) == Reverse(rest) + nodes
        invariant forall n <- rest :: n in old(nodes)
        decreases |rest|
        modifies this`intermediates, this`nodes, old(nodes)
      {
        ChainedTail(current, rest);
        Turned(current, rest, nodes);
        assert rest[0] in rest;
        var following := current.next;
        Push(current);
        rest := rest[1..];
        current := following;
      }
      Turned0(rest, nodes);
    }
  }

  lemma Turned(n: Node<string>, rest: seq<Node<string>>, nodes: seq<Node<string>>)
    requires rest != [] && n == rest[0]
    ensures Reverse(rest) + nodes == Reverse(rest[1..]) + ([n] + nodes)
    ensures forall m <- rest[1..] :: m in rest
  {
  }

  lemma Turned0(rest: seq<Node<string>>, nodes: seq<Node<string>>)
    ensures rest == [] ==> Reverse(rest) + nodes == nodes
  {
  }

  class AtContext {
    var kind: CommandType
    var responsePrefix: string
    var smsPDU: Option<string>
    var response: ATResponse?
    /** What has been handed to the unsolicited handler, and what has been written with a Ctrl-Z. */
    ghost var unsolicited: seq<string>
    ghost var pdus: seq<string>

    ghost predicate Valid()
      reads this, response, if response == null then [] else response.nodes
    {
      response != null ==> response.Valid()
    }

    ghost function Value(): Channel
      reads this, response
    {
      Channel(
        if response == null then None
        else Some(Pending(kind, responsePrefix, smsPDU, ValuesOf(response.nodes), response.FinalLine())),
        unsolicited, pdus)
    }

    constructor ()
      ensures Valid() && Value() == Channel(None, [], [])
    {
      kind, responsePrefix, smsPDU, response, unsolicited, pdus := NO_RESULT, "", None, null, [], [];
    }

    /** The list has no nodes but these and newly allocated ones. */
    twostate predicate NoOthers(before: seq<Node<string>>)
      requires response != null
      reads this, response
    {
      forall k | 0 <= k < |response.nodes| :: response.nodes[k] in before || fresh(response.nodes[k])
    }

    method AddIntermediate(line: string)
      requires response != null && Valid()
      modifies response`intermediates, response`nodes
      ensures Valid() && ValuesOf(response.nodes) == [line] + old(ValuesOf(response.nodes))
      ensures NoOthers(old(response.nodes))
    {
      var node := new Node<string>(line, response.intermediates);
      response.intermediates := node;
      response.nodes := [node] + response.nodes;
    }

    method HandleUnsolicited(line: string)
      modifies this`unsolicited
      ensures unsolicited == old(unsolicited) + [line]
    {
      unsolicited := unsolicited + [line];
    }

    method WriteCtrlZ(s: string)
      modifies this`pdus
      ensures pdus == old(pdus) + [s]
    {
      pdus := pdus + [s];
    }

    method HandleFinalResponse(line: string)
      requires response != null
      modifies response`finalResponse
      ensures response.finalResponse == Some(line)
    {
      response.finalResponse := Some(line);
    }

    method ProcessLine(line: string)
      requires Valid()
      modifies this, response
      ensures Valid() && response == old(response) && Value() == Process(old(Value()), line)
      ensures response != null ==> NoOthers(old(response.nodes))
    {
      hide Chained, ValuesOf, IsFinalResponseSuccess, IsFinalResponseError;
      if response != null {
        EmptyList(response.intermediates, response.nodes);
      }
      if response == null {
        HandleUnsolicited(line);
      } else if IsFinalResponseSuccess(line) {
        response.success := true;
        HandleFinalResponse(line);
      } else if IsFinalResponseError(line) {
        response.success := false;
        HandleFinalResponse(line);
      } else if smsPDU.Some? && line == PROMPT {
        WriteCtrlZ(smsPDU.value);
        smsPDU := None;
      } else {
        match kind
        case NO_RESULT =>
          HandleUnsolicited(line);
        case NUMERIC =>
          if response.intermediates == null && line != "" && '0' <= line[0] <= '9' {
            AddIntermediate(line);
          } else {
            HandleUnsolicited(line);
          }
        case SINGLELINE =>
          if response.intermediates == null && responsePrefix <= line {
            AddIntermediate(line);
          } else {
            HandleUnsolicited(line);
          }
        case MULTILINE =>
          if responsePrefix <= line {
            AddIntermediate(line);
          } else {
            HandleUnsolicited(line);
          }
      }
    }

    /** A command becomes the pending one. */
    method StartCommand(commandType: CommandType, prefix: string, pdu: Option<string>)
      requires response == null
      modifies this
      ensures Valid() && fresh(response) && Value() == old(Value()).(pending := Some(Fresh(commandType, prefix, pdu)))
    {
      kind, responsePrefix, smsPDU := commandType, prefix, pdu;
      response := new ATResponse();
    }

    /** The end of a command that was answered: the list turned round and handed over. */
    method TakeResponse() returns (r: ATResponse)
      requires Valid() && response != null
      modifies this, response, response.nodes
      ensures Value() == old(Value()).(pending := None)
      ensures r == old(response) && r.Valid() && r.FinalLine() == old(response.FinalLine())
      ensures ValuesOf(r.nodes) == Reverse(old(ValuesOf(response.nodes)))
    {
      hide Chained, ValuesOf, Reverse;
      response.ReverseIntermediates();
      r := response;
      response, responsePrefix, smsPDU := null, "", None;
    }

    /** A whole exchange: a command is started, lines come in, and the response is taken. */
    method Exchange(commandType: CommandType, prefix: string, pdu: Option<string>, lines: seq<string>)
        returns (r: ATResponse)
      requires response == null
      modifies this
      ensures Value().pending == None && r.Valid()
      ensures ValuesOf(r.nodes) == Responses(commandType, prefix, pdu, lines)
      ensures pdus == old(pdus) + (if pdu.Some? && "> " in lines then [pdu.value] else [])
      ensures r.FinalLine() == FinalOf(lines)
      ensures unsolicited == old(unsolicited) + LeftOver(commandType, prefix, pdu, lines)
    {
      hide Process, Responses, NotFinal, Reverse, FinalOf, LeftOver;
      StartCommand(commandType, prefix, pdu);
      ghost var start := Value();
      var i := 0;
      Nothing(start);
      while i < |lines|
        invariant 0 <= i <= |lines| && Valid() && response != null && fresh(response)
        invariant Value() == ProcessAll(start, lines[..i])
        invariant forall k | 0 <= k < |response.nodes| :: fresh(response.nodes[k])
      {
        OneMore(start, lines, i);
        ProcessLine(lines[i]);
        i := i + 1;
      }
      assert lines[..i] == lines;
      CommandGetsItsResponses(start, commandType, prefix, pdu, lines);
      FinalResponse(start, lines);
      HandlerGetsTheRest(start, commandType, prefix, pdu, lines);
      PromptSeen(lines);
      r := TakeResponse();
    }
  }

  lemma Nothing(c: Channel)
    ensures ProcessAll(c, []) == c
  {
  }

  lemma OneMore(c: Channel, lines: seq<string>, i: nat)
    requires i < |lines|
    ensures ProcessAll(c, lines[..i + 1]) == Process(ProcessAll(c, lines[..i]), lines[i])
  {
    hide Process;
    assert lines[..i + 1][..i] == lines[..i];
  }
}
