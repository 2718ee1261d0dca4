/** Incoming messages and their acknowledgement (mbm/mbm-ril/u300-ril-messaging.c:59-97, 142-232, 572-603):
    one message at a time is passed on, and the next only after the last has been acknowledged; those that
    come in between are held. Allocation succeeds. */
module Messaging {
  import opened Basics
  import opened Hex
  import opened Lists

  const BSM_LENGTH := 88

  datatype Kind = Sms | StatusReport | Broadcast

  /** What is passed on: characters, or the bytes of a broadcast message. */
  datatype Content = Text(text: string) | Bytes(bytes: seq<Byte>)

  datatype Pdu = Pdu(kind: Kind, content: Content)

  /** What the framework sees and does. */
  datatype Entry = Delivered(pdu: Pdu) | Acknowledged

  /** A message that has come in: what lies in memory behind its bytes, and whether an acknowledgement was
      outstanding. */
  datatype Arrival = Arrival(pdu: Pdu, behind: seq<Byte>, waited: bool)
  {
    /** What is to become of it. */
    function PassedOn(): Pdu {
      if waited then Copied(pdu, behind) else pdu
    }
  }

  datatype State = State(outstanding: bool, held: seq<Pdu>, log: seq<Entry>, arrived: seq<Arrival>)

  /** `behind` is what the memory behind the bytes of a broadcast holds. */
  datatype Action =
    | NewSms(text: string)
    | NewStatusReport(text: string)
    | NewBroadcastSms(text: string, behind: seq<Byte>)
    | Acknowledge

  function FirstZero(m: seq<Byte>): (n: nat)
    requires 0 in m
    ensures n < |m| && m[n] == 0 && 0 !in m[..n]
  {
    if m[0] == 0 then 0 else 1 + FirstZero(m[1..])
  }

  /** What is held of a PDU: the copy of a string, which for the bytes of a broadcast ends at the first zero
      byte, be it among them or behind them. */
  function Copied(p: Pdu, behind: seq<Byte>): Pdu {
    if !p.content.Bytes? then p
    else
      var memory := p.content.bytes + behind + [0];
      Pdu(p.kind, Bytes(memory[..FirstZero(memory)]))
  }

  /** The PDU that an incoming message becomes; a broadcast of the wrong length is discarded. */
  function Arriving(a: Action): Option<Pdu> {
    match a
    case NewSms(text) => Some(Pdu(Sms, Text(text)))
    case NewStatusReport(text) => Some(Pdu(StatusReport, Text("00" + text)))
    case NewBroadcastSms(text, _) =>
      if |text| != 2 * BSM_LENGTH then None else Some(Pdu(Broadcast, Bytes(Binary(text))))
    case Acknowledge => None
  }

  function Arrive(s: State, p: Pdu, behind: seq<Byte>): State {
    var t := s.(arrived := s.arrived + [Arrival(p, behind, s.outstanding)]);
    if s.outstanding then t.(held := s.held + [Copied(p, behind)])
    else t.(outstanding := true, log := s.log + [Delivered(p)])
  }

  function Acked(s: State): State {
    var log := s.log + [Acknowledged];
    if s.held != [] then s.(held := s.held[1..], log := log + [Delivered(s.held[0])])
    else s.(outstanding := false, log := log)
  }

  function Next(s: State, a: Action): State {
    if a == Acknowledge then Acked(s)
    else
      match Arriving(a)
      case None => s
      case Some(p) => Arrive(s, p, if a.NewBroadcastSms? then a.behind else [])
  }

  // ----- what every run keeps

  function Deliveries(log: seq<Entry>): seq<Pdu> {
    if log == [] then []
    else Deliveries(log[..|log| - 1]) + if log[|log| - 1].Delivered? then [log[|log| - 1].pdu] else []
  }

  function Acks(log: seq<Entry>): nat {
    if log == [] then 0 else Acks(log[..|log| - 1]) + if log[|log| - 1].Acknowledged? then 1 else 0
  }

  /** What is to become of the messages that have come in, in order. */
  function AllPassedOn(arrived: seq<Arrival>): seq<Pdu> {
    if arrived == [] then [] else AllPassedOn(arrived[..|arrived| - 1]) + [arrived[|arrived| - 1].PassedOn()]
  }

  /** Two deliveries never follow each other without an acknowledgement in between. */
  predicate Separated(log: seq<Entry>) {
    forall i | 0 <= i < |log| - 1 && log[i].Delivered? :: log[i + 1].Acknowledged?
  }

  predicate Inv(s: State) {
    && Separated(s.log)
    && (s.outstanding <==> s.log != [] && s.log[|s.log| - 1].Delivered?)
    && (s.held != [] ==> s.outstanding)
    && AllPassedOn(s.arrived) == Deliveries(s.log) + s.held
  }

  lemma LogSnoc(log: seq<Entry>, e: Entry)
    ensures Deliveries(log + [e]) == Deliveries(log) + if e.Delivered? then [e.pdu] else []
    ensures Acks(log + [e]) == Acks(log) + if e.Acknowledged? then 1 else 0
    ensures Separated(log) && (log == [] || !log[|log| - 1].Delivered? || e.Acknowledged?) ==> Separated(log + [e])
  {
    hide Separated;
    assert (log + [e])[..|log|] == log;
    SeparatedSnoc(log, e);
  }

  lemma SeparatedSnoc(log: seq<Entry>, e: Entry)
    ensures Separated(log) && (log == [] || !log[|log| - 1].Delivered? || e.Acknowledged?) ==> Separated(log + [e])
  {
  }

  lemma ArrivedSnoc(arrived: seq<Arrival>, a: Arrival)
    ensures AllPassedOn(arrived + [a]) == AllPassedOn(arrived) + [a.PassedOn()]
  {
    assert (arrived + [a])[..|arrived|] == arrived;
  }

  lemma NextKeepsInv(s: State, a: Action)
    requires Inv(s)
    ensures Inv(Next(s, a))
  {
    hide Copied, Deliveries, Separated, AllPassedOn;
    if a == Acknowledge {
      LogSnoc(s.log, Acknowledged);
      assert Deliveries(s.log) + [] == Deliveries(s.log);
      if s.held != [] {
        LogSnoc(s.log + [Acknowledged], Delivered(s.held[0]));
        assert Deliveries(s.log) + s.held == Deliveries(s.log) + [s.held[0]] + s.held[1..];
      }
    } else if Arriving(a).Some? {
      var p, behind := Arriving(a).value, if a.NewBroadcastSms? then a.behind else [];
      hide Arriving;
      ArrivedSnoc(s.arrived, Arrival(p, behind, s.outstanding));
      if s.outstanding {
        Associate(Deliveries(s.log), s.held, [Copied(p, behind)]);
      } else {
        LogSnoc(s.log, Delivered(p));
        assert Deliveries(s.log) + [p] + [] == Deliveries(s.log) + [p];
      }
    }
  }

  function Run(s: State, actions: seq<Action>): State
    decreases |actions|
  {
    if actions == [] then s else Run(Next(s, actions[0]), actions[1..])
  }

  function Init(): State {
    State(false, [], [], [])
  }

  lemma {:induction false} RunKeepsInv(s: State, actions: seq<Action>)
    requires Inv(s)
    ensures Inv(Run(s, actions))
    decreases |actions|
  {
    hide Inv, Next;
    if actions != [] {
      NextKeepsInv(s, actions[0]);
      RunKeepsInv(Next(s, actions[0]), actions[1..]);
    }
  }

  lemma {:induction false} SeparatedCounts(log: seq<Entry>)
    requires Separated(log)
    ensures |Deliveries(log)| <= Acks(log) + if log != [] && log[|log| - 1].Delivered? then 1 else 0
    decreases |log|
  {
    if log != [] {
      var rest := log[..|log| - 1];
      SeparatedCounts(rest);
      if rest != [] && rest[|rest| - 1].Delivered? {
        assert log[|rest| - 1].Delivered? && log[|rest| - 1 + 1].Acknowledged?;
      }
    }
  }

  /** Over every run: deliveries are separated by acknowledgements, and so are never more than one ahead of
      them; a message is held only while an acknowledgement is outstanding; what has been delivered, followed
      by what is held, is what has arrived, in order: as it was if nothing was outstanding then, and else its
      copy. */
  lemma OneOutstanding(actions: seq<Action>)
    ensures var s := Run(Init(), actions);
            && Separated(s.log) && |Deliveries(s.log)| <= Acks(s.log) + 1
            && (s.outstanding <==> s.log != [] && s.log[|s.log| - 1].Delivered?)
            && (s.held != [] ==> s.outstanding)
            && AllPassedOn(s.arrived) == Deliveries(s.log) + s.held
  {
    RunKeepsInv(Init(), actions);
    SeparatedCounts(Run(Init(), actions).log);
  }

  /** Nothing stays behind: as many acknowledgements as there are held messages deliver them all. */
  lemma {:induction false} AcknowledgementsDrain(s: State)
    ensures var t := Run(s, seq(|s.held|, _ => Acknowledge));
            t.held == [] && t.outstanding == s.outstanding && Deliveries(t.log) == Deliveries(s.log) + s.held
    decreases |s.held|
  {
    if s.held == [] {
      assert seq(|s.held|, _ => Acknowledge) == [] && Deliveries(s.log) + [] == Deliveries(s.log);
    } else {
      var next := Next(s, Acknowledge);
      AcknowledgementsDrain(next);
      assert seq(|s.held|, _ => Acknowledge)[1..] == seq(|next.held|, _ => Acknowledge);
      LogSnoc(s.log, Acknowledged);
      LogSnoc(s.log + [Acknowledged], Delivered(s.held[0]));
      assert Deliveries(s.log) + [s.held[0]] + s.held[1..] == Deliveries(s.log) + s.held;
    }
  }

  /** The copy is the message exactly if it is one of characters, or its bytes have no zero among them and one
      right behind them. */
  lemma CopiedWhole(p: Pdu, behind: seq<Byte>)
    ensures Copied(p, behind) == p
        <==> p.content.Text? || (0 !in p.content.bytes && (behind == [] || behind[0] == 0))
  {
    if p.content.Bytes? {
      var bytes := p.content.bytes;
      var memory := bytes + behind + [0];
      var n := FirstZero(memory);
      assert memory[|bytes|] == if behind == [] then 0 else behind[0];
      assert memory[..|bytes|] == bytes && |memory[..n]| == n;
      if 0 !in bytes && memory[|bytes|] == 0 {
        FirstZeroIs(memory, |bytes|);
      }
      hide FirstZero;
    }
  }

  lemma {:induction false} FirstZeroIs(m: seq<Byte>, n: nat)
    requires n < |m| && m[n] == 0 && 0 !in m[..n]
    ensures FirstZero(m) == n
    decreases n
  {
    if n > 0 {
      assert m[0] in m[..n] && m[1..][..n - 1] == m[..n][1..];
      FirstZeroIs(m[1..], n - 1);
    }
  }

  /** A broadcast is passed on whole exactly if nothing is outstanding when it comes in, or its copy happens
      to end where it does. */
  lemma BroadcastIsWholeExactly(s: State, text: string, behind: seq<Byte>)
    requires |text| == 2 * BSM_LENGTH
    ensures var p, t := Pdu(Broadcast, Bytes(Binary(text))), Next(s, NewBroadcastSms(text, behind));
            && t.arrived == s.arrived + [Arrival(p, behind, s.outstanding)] && |p.content.bytes| == BSM_LENGTH
            && (t.arrived[|s.arrived|].PassedOn() == p
                <==> !s.outstanding || (0 !in p.content.bytes && (behind == [] || behind[0] == 0)))
  {
    CopiedWhole(Pdu(Broadcast, Bytes(Binary(text))), behind);
    hide Copied, Binary;
  }

  /** SMS and status reports always are passed on as what they came as, a report with 00 in front of it. */
  lemma TextIsWhole(s: State, text: string)
    ensures var t := Next(s, NewSms(text));
            && |t.arrived| == |s.arrived| + 1 && t.arrived[|s.arrived|].PassedOn() == Pdu(Sms, Text(text))
            && (if s.outstanding then t.held == s.held + [Pdu(Sms, Text(text))]
                else t.log == s.log + [Delivered(Pdu(Sms, Text(text)))])
    ensures var t, pdu := Next(s, NewStatusReport(text)), Pdu(StatusReport, Text("00" + text));
            && |t.arrived| == |s.arrived| + 1 && t.arrived[|s.arrived|].PassedOn() == pdu
            && (if s.outstanding then t.held == s.held + [pdu] else t.log == s.log + [Delivered(pdu)])
  {
  }

  /** A broadcast of another length than 88 bytes is discarded; the bytes are those of its digits. */
  lemma BroadcastIs(s: State, text: string, behind: seq<Byte>, i: nat)
    ensures |text| != 176 ==> Next(s, NewBroadcastSms(text, behind)) == s
    ensures |text| == 176 && i < 88 ==>
      var t := Next(s, NewBroadcastSms(text, behind));
      && |t.arrived| == |s.arrived| + 1
      && var pdu := t.arrived[|s.arrived|].pdu;
         && pdu.kind == Broadcast && pdu.content.Bytes? && |pdu.content.bytes| == 88
         && pdu.content.bytes[i] == 16 * Nibble(text[2 * i]) + Nibble(text[2 * i + 1])
  {
    if |text| == 176 && i < 88 {
      BinaryIs(text, i);
    }
    hide Binary, Copied, Nibble;
  }

  // ----- the list of held PDUs

  class Inbox {
    var heldPdus: Node?<Pdu>
    var outstandingAcknowledge: bool
    ghost var nodes: seq<Node<Pdu>>
    /** What has been passed on and acknowledged, and what has come in. */
    ghost var log: seq<Entry>
    ghost var arrived: seq<Arrival>

    ghost predicate Valid()
      reads this, nodes
    {
      Chained(heldPdus, nodes)
    }

    ghost function Value(): State
      reads this
    {
      State(outstandingAcknowledge, ValuesOf(nodes), log, arrived)
    }

    constructor ()
      ensures Valid() && Value() == Init()
    {
      heldPdus, outstandingAcknowledge, nodes, log, arrived := null, false, [], [], [];
    }

    method DequeueHeldPdu() returns (hpdu: Node?<Pdu>)
      requires Valid()
      modifies this`heldPdus, this`nodes, nodes
      ensures Valid()
      ensures var q := ValuesOf(old(nodes));
              if q == [] then hpdu == null && ValuesOf(nodes) == []
              else hpdu != null && q[0] == hpdu.value && q[1..] == ValuesOf(nodes)
    {
      hpdu := null;
      if heldPdus != null {
        hpdu := heldPdus;
        heldPdus := hpdu.next;
        hpdu.next := null;
        nodes := nodes[1..];
      }
    }

    method EnqueueHeldPdu(pdu: Pdu, behind: seq<Byte>)
      requires Valid()
      modifies this`heldPdus, this`nodes, nodes
      ensures Valid() && ValuesOf(nodes) == ValuesOf(old(nodes)) + [Copied(pdu, behind)]
    {
      hide ValuesOf, Copied;
      var hpdu := new Node<Pdu>(Copied(pdu, behind), null);
      if heldPdus == null {
        heldPdus := hpdu;
      } else {
        var p := heldPdus;
        ghost var k := 0;
        while p.next != null
          invariant k < |nodes| && p == nodes[k]
          decreases |nodes| - k
        {
          p, k := p.next, k + 1;
        }
        LastOf(heldPdus, nodes, k);
        p.next := hpdu;
      }
      nodes := nodes + [hpdu];
      ValuesSnoc(old(nodes), hpdu);
    }

    method OnUnsolicitedResponse(pdu: Pdu)
      modifies this`log
      ensures log == old(log) + [Delivered(pdu)]
    {
      log := log + [Delivered(pdu)];
    }

    /** The common part of the three ways in. */
    method Receive(pdu: Pdu, behind: seq<Byte>)
      requires Valid()
      modifies this, nodes
      ensures Valid() && Value() == Arrive(old(Value()), pdu, behind)
    {
      hide ValuesOf, Copied;
      arrived := arrived + [Arrival(pdu, behind, outstandingAcknowledge)];
      if outstandingAcknowledge {
        EnqueueHeldPdu(pdu, behind);
      } else {
        outstandingAcknowledge := true;
        OnUnsolicitedResponse(pdu);
      }
    }

    method OnNewSms(text: string)
      requires Valid()
      modifies this, nodes
      ensures Valid() && Value() == Next(old(Value()), NewSms(text))
    {
      Receive(Pdu(Sms, Text(text)), []);
    }

    method OnNewStatusReport(text: string)
      requires Valid()
      modifies this, nodes
      ensures Valid() && Value() == Next(old(Value()), NewStatusReport(text))
    {
      Receive(Pdu(StatusReport, Text("00" + text)), []);
    }

    method OnNewBroadcastSms(text: string, behind: seq<Byte>)
      requires Valid()
      modifies this, nodes
      ensures Valid() && Value() == Next(old(Value()), NewBroadcastSms(text, behind))
    {
      if |text| != 2 * BSM_LENGTH {
        return;
      }
      Receive(Pdu(Broadcast, Bytes(Binary(text))), behind);
    }

    method RequestSMSAcknowledge()
      requires Valid()
      modifies this, nodes
      ensures Valid() && Value() == Next(old(Value()), Acknowledge)
    {
      hide ValuesOf, Arriving, Chained;
      log := log + [Acknowledged];
      var hpdu := DequeueHeldPdu();
      if hpdu != null {
        OnUnsolicitedResponse(hpdu.value);
      } else {
        outstandingAcknowledge := false;
      }
    }
  }
}
