/** The clean end of the capture pipeline, and the collect loop's way out of its wait, in every
    interleaving of the threads. */
module PipelineEnd {
  import opened Basics
  import F = GatorFifo
  import R = GatorBufferRuns
  import opened Pipeline

  /** How many of the steps are the sender's. */
  function SenderSteps(actions: seq<Action>): nat {
    if actions == [] then 0 else SenderSteps(actions[1..]) + if actions[0].Sender? then 1 else 0
  }

  // ----- the clean end

  /** Once production is over no thread but the sender can change what the sender is still to do. */
  lemma OthersLeaveTheEnd(p: State, a: Action)
    requires Inv(p) && Closing(p) && Enabled(p, a) && !a.Sender?
    ensures var q := Next(p, a);
            && Closing(q) && StepsLeft(q) == StepsLeft(p) && q.written == p.written && q.ring == p.ring
  {
    hide FifoPart, RingPart, F.State.Valid, F.State.Unread, F.State.IsFull;
  }

  lemma StepsClose(p: State, a: Action)
    requires Inv(p) && Closing(p) && Enabled(p, a)
    ensures var q := Next(p, a);
            && Inv(q) && Closing(q) && StepsLeft(q) + (if a.Sender? then 1 else 0) <= StepsLeft(p)
            && q.written == p.written && q.ring.history.frames == p.ring.history.frames
  {
    NextKeepsInv(p, a);
    if a.Sender? {
      assert p.fifo.Valid() && p.ring.buffer.Placed();
      hide Inv, Closing, StepsLeft, SenderStep;
      SenderClosesIn(p);
    } else {
      hide Inv, Closing, StepsLeft;
      OthersLeaveTheEnd(p, a);
    }
  }

  /** After the end mark and `setDone`, whatever the other threads do in between: the sender can always take
      its next step until it has exited, it takes at most `StepsLeft` of them, and when it has taken that
      many it has exited. Then every byte collected and every frame committed has been delivered, with the
      end-of-capture sequence last unless the capture is local. */
  lemma {:induction false} EveryRunEndsCleanly(p: State, actions: seq<Action>, last: State)
    requires Inv(p) && Closing(p) && Executes(p, actions, last)
    ensures Closing(last) && SenderSteps(actions) + StepsLeft(last) <= StepsLeft(p)
    ensures last.sender != Exited ==> SenderEnabled(last)
    ensures SenderSteps(actions) == StepsLeft(p) ==> last.sender == Exited
    ensures last.sender == Exited ==> Delivered(last) && Marked(last)
    ensures last.written == p.written && last.ring.history.frames == p.ring.history.frames
    decreases |actions|
  {
    if actions == [] {
      hide Inv, Closing, Delivered, Marked;
      if p.sender == Exited {
        ExitedHasDelivered(p);
      } else {
        ClosingSenderIsEnabled(p);
      }
    } else {
      hide Inv, Closing, StepsLeft, Delivered, Marked, Next, Enabled;
      StepsClose(p, actions[0]);
      EveryRunEndsCleanly(Next(p, actions[0]), actions[1..], last);
    }
  }

  // ----- room for the collect loop

  /** Bounds the sender's steps up to the release that makes room in a FIFO that is full. */
  function ToRoom(p: State): nat {
    match p.sender
    case AtHalt => 5
    case AtRing => 5
    case AtTest => 4
    case AtSem => 3
    case Woken => 2
    case Holding => if p.fifo.Release().IsFull() then 6 else 1
    case Exited => 0
  }

  ghost predicate FullAllAlong(p: State, actions: seq<Action>)
    requires Inv(p)
    decreases |actions|
  {
    && p.fifo.IsFull()
    && (actions != [] && Enabled(p, actions[0]) ==>
          (NextKeepsInv(p, actions[0]); FullAllAlong(Next(p, actions[0]), actions[1..])))
  }

  /** A full FIFO has something to read or to release, and the sender can get at it. */
  lemma FullHasSender(p: State)
    requires Inv(p) && p.fifo.IsFull()
    ensures SenderEnabled(p) && p.sender != Exited && 0 < ToRoom(p) <= 6
  {
    F.TwoReleasesFreeTheWriter(p.fifo);
    hide R.Inv, FifoPart, RingPart, F.State.Release;
  }

  lemma OthersLeaveItFull(p: State, a: Action)
    requires Inv(p) && Enabled(p, a) && p.fifo.IsFull() && !a.Sender?
    ensures ToRoom(Next(p, a)) == ToRoom(p)
  {
    hide R.Inv, FifoPart, RingPart, F.State.Release, F.State.IsFull;
  }

  /** What is read from a full FIFO is, once released, enough to make room. */
  lemma ReadMakesRoom(p: State)
    requires Inv(p) && p.fifo.IsFull() && p.sender == Woken
    ensures ToRoom(ReadStep(p)) == 1
  {
    F.TwoReleasesFreeTheWriter(p.fifo);
    hide R.Inv, FifoPart, RingPart, CreditInv, SpaceInv, GateInv;
    hide F.State.Valid, F.State.Unread, F.State.Read, F.State.Release, F.State.IsFull;
  }

  lemma TestGoesOn(p: State)
    requires Inv(p) && p.fifo.IsFull() && p.sender == AtTest
    ensures TestStep(p) == p.(sender := AtSem)
  {
    F.TwoReleasesFreeTheWriter(p.fifo);
    hide R.Inv, FifoPart, RingPart, SpaceInv, GateInv, F.State.IsFull, F.State.Release;
  }

  lemma SenderMakesRoom(p: State)
    requires Inv(p) && p.fifo.IsFull() && SenderEnabled(p)
    ensures p.fifo.Valid() && p.ring.buffer.Placed()
    ensures SenderStep(p).fifo.IsFull() ==> ToRoom(SenderStep(p)) < ToRoom(p)
  {
    assert p.fifo.Valid() && p.ring.buffer.Placed();
    hide Inv, ReadStep, TestStep, R.Apply, F.State.Valid, F.State.Release, F.State.IsFull;
    match p.sender
    case Woken => ReadMakesRoom(p);
    case AtTest => TestGoesOn(p);
    case _ =>
  }

  lemma StepTowardsRoom(p: State, a: Action)
    requires Inv(p) && Enabled(p, a) && p.fifo.IsFull()
    ensures Inv(Next(p, a))
    ensures Next(p, a).fifo.IsFull() ==> ToRoom(Next(p, a)) + (if a.Sender? then 1 else 0) <= ToRoom(p)
  {
    NextKeepsInv(p, a);
    if a.Sender? {
      SenderMakesRoom(p);
    } else {
      OthersLeaveItFull(p, a);
    }
    hide Inv, ToRoom, SenderStep, F.State.IsFull;
  }

  /** However long the FIFO stays full and whatever else happens meanwhile, the sender can always take its
      next step, and it takes at most six. */
  lemma {:induction false} FullForSixSteps(p: State, actions: seq<Action>, last: State)
    requires Inv(p) && Executes(p, actions, last) && FullAllAlong(p, actions)
    ensures SenderSteps(actions) + ToRoom(last) <= ToRoom(p) <= 6
    ensures SenderEnabled(last) && ToRoom(last) > 0
    decreases |actions|
  {
    hide Inv, Next, Enabled, ToRoom, SenderEnabled, F.State.IsFull;
    FullHasSender(p);
    if actions != [] {
      StepTowardsRoom(p, actions[0]);
      FullForSixSteps(Next(p, actions[0]), actions[1..], last);
    }
  }

  /** So a collect loop that waits gets room before the sender has taken more than six steps, whatever the
      interleaving. */
  lemma {:induction false} SixStepsMakeRoom(p: State, actions: seq<Action>, last: State) returns (k: nat, mid: State)
    requires Inv(p) && Executes(p, actions, last)
    requires p.fifo.IsFull() ==> SenderSteps(actions) >= ToRoom(p)
    ensures k <= |actions| && Executes(p, actions[..k], mid) && Inv(mid) && !mid.fifo.IsFull()
    ensures SenderSteps(actions[..k]) <= if p.fifo.IsFull() then ToRoom(p) else 0
    decreases |actions|
  {
    hide Inv, Next, Enabled, ToRoom, SenderEnabled, F.State.IsFull;
    if p.fifo.IsFull() {
      FullHasSender(p);
      assert actions != [];
      StepTowardsRoom(p, actions[0]);
      k, mid := SixStepsMakeRoom(Next(p, actions[0]), actions[1..], last);
      k := k + 1;
      assert actions[..k][0] == actions[0] && actions[..k][1..] == actions[1..][..k - 1];
    } else {
      k, mid := 0, p;
      assert actions[..0] == [];
    }
  }

  /** And as soon as the FIFO has room, the collect loop's wait is over: its next two steps take it out. */
  lemma RoomEndsTheWait(p: State)
    requires Inv(p) && p.collector.Blocked? && !p.fifo.IsFull()
    ensures Enabled(p, SpaceWait) && Inv(Next(p, SpaceWait)) && Enabled(Next(p, SpaceWait), Guard)
    ensures Next(Next(p, SpaceWait), Guard).collector == if p.collector.more then Collecting else Ended
  {
    NextKeepsInv(p, SpaceWait);
    hide R.Inv, FifoPart, RingPart, F.State.Valid, F.State.IsFull;
  }

  // ----- the sender among the others

  /** The other threads can take these steps, one after the other. */
  ghost predicate OthersCan(p: State, actions: seq<Action>)
    decreases |actions|
  {
    Inv(p)
    && (actions == []
        || (!actions[0].Sender? && Enabled(p, actions[0]) && OthersCan(Next(p, actions[0]), actions[1..])))
  }

  ghost function AfterOthers(p: State, actions: seq<Action>): State
    requires OthersCan(p, actions)
    decreases |actions|
  {
    if actions == [] then p else AfterOthers(Next(p, actions[0]), actions[1..])
  }

  lemma OtherSpares(p: State, a: Action)
    requires Inv(p) && Enabled(p, a) && !a.Sender?
    ensures var q := Next(p, a);
            && q.sender == p.sender && q.length == p.length && q.log == p.log
            && q.fifo.read == p.fifo.read && q.fifo.readCommit == p.fifo.readCommit
  {
    hide Inv, R.Apply, F.State.IsFull, F.State.WillFill;
  }

  /** What the sender knows stays true: where it is, and the span it holds. */
  lemma {:induction false} OthersSpare(p: State, actions: seq<Action>)
    requires OthersCan(p, actions)
    ensures var q := AfterOthers(p, actions);
            && Inv(q) && q.fifo.Valid() && q.ring.buffer.Placed()
            && q.sender == p.sender && q.length == p.length && q.log == p.log
            && q.fifo.read == p.fifo.read && q.fifo.readCommit == p.fifo.readCommit
            && Executes(p, actions, q)
    decreases |actions|
  {
    if actions == [] {
      hide F.State.Valid, FifoPart, RingPart;
    } else {
      hide Inv, Next, Enabled;
      OtherSpares(p, actions[0]);
      OthersSpare(Next(p, actions[0]), actions[1..]);
    }
  }

  lemma OthersGoOn(p: State, actions: seq<Action>)
    requires OthersCan(p, actions) && actions != []
    ensures Inv(p) && Enabled(p, actions[0]) && !actions[0].Sender? && OthersCan(Next(p, actions[0]), actions[1..])
    ensures AfterOthers(p, actions) == AfterOthers(Next(p, actions[0]), actions[1..])
  {
    hide Inv, Next, Enabled;
  }

  lemma OthersStop(p: State)
    requires OthersCan(p, [])
    ensures AfterOthers(p, []) == p
  {
  }

  /** An interleaving up to the sender's end: before each of its steps the others take those listed, and then
      it can take its own. */
  ghost predicate Plays(p: State, others: seq<seq<Action>>)
    decreases |others|
  {
    Inv(p)
    && (p.sender == Exited
        || (&& others != [] && OthersCan(p, others[0])
            && (OthersSpare(p, others[0]);
                var q := AfterOthers(p, others[0]); SenderEnabled(q) && Plays(SenderStep(q), others[1..]))))
  }

  ghost function Played(p: State, others: seq<seq<Action>>): State
    requires Plays(p, others)
    decreases |others|
  {
    if p.sender == Exited then p
    else
      OthersSpare(p, others[0]);
      Played(SenderStep(AfterOthers(p, others[0])), others[1..])
  }

  ghost function Interleaved(p: State, others: seq<seq<Action>>): seq<Action>
    requires Plays(p, others)
    decreases |others|
  {
    if p.sender == Exited then []
    else
      OthersSpare(p, others[0]);
      others[0] + ([Sender] + Interleaved(SenderStep(AfterOthers(p, others[0])), others[1..]))
  }

  lemma {:induction false} Executed(p: State, a: seq<Action>, mid: State, b: seq<Action>, last: State)
    requires Executes(p, a, mid) && Executes(mid, b, last)
    ensures Executes(p, a + b, last)
    decreases |a|
  {
    hide Inv, Next, Enabled;
    if a == [] {
      assert a + b == b;
    } else {
      Executed(Next(p, a[0]), a[1..], mid, b, last);
      assert (a + b)[1..] == a[1..] + b;
    }
  }

  /** The others have had their steps; the sender can take its own, and so on to the state `end`. */
  ghost predicate Poised(p: State, others: seq<seq<Action>>, end: State) {
    && Inv(p) && p.fifo.Valid() && p.ring.buffer.Placed() && SenderEnabled(p) && Inv(SenderStep(p))
    && Plays(SenderStep(p), others) && Played(SenderStep(p), others) == end
  }

  lemma PoisedIs(p: State, others: seq<seq<Action>>, end: State)
    requires Poised(p, others, end)
    ensures Inv(p) && p.fifo.Valid() && p.ring.buffer.Placed() && SenderEnabled(p) && Inv(SenderStep(p))
    ensures Plays(SenderStep(p), others) && Played(SenderStep(p), others) == end
  {
    hide Inv, SenderStep, SenderEnabled, Plays, Played, F.State.Valid;
  }

  lemma PlaysOn(p: State, others: seq<seq<Action>>)
    requires Plays(p, others) && p.sender != Exited
    ensures others != [] && OthersCan(p, others[0])
    ensures var q := AfterOthers(p, others[0]);
            && Poised(q, others[1..], Played(p, others)) && Inv(q)
            && q.fifo.Valid() && q.ring.buffer.Placed() && SenderEnabled(q)
            && q.sender == p.sender && Plays(SenderStep(q), others[1..])
            && Played(p, others) == Played(SenderStep(q), others[1..])
            && Interleaved(p, others) == others[0] + ([Sender] + Interleaved(SenderStep(q), others[1..]))
            && Executes(p, others[0], q)
  {
    OthersSpare(p, others[0]);
    assert Inv(SenderStep(AfterOthers(p, others[0])));
    hide Inv, SenderStep, SenderEnabled, OthersCan, AfterOthers, Executes, F.State.Valid;
  }

  lemma Gone(p: State, others: seq<seq<Action>>)
    requires Plays(p, others) && p.sender == Exited
    ensures Inv(p) && Executes(p, [], p)
    ensures Played(p, others) == p && Interleaved(p, others) == [] && Delivered(p) && Marked(p)
  {
    ExitedHasDelivered(p);
    hide Inv, Delivered, Marked;
  }

  lemma ThenSender(p: State, rest: seq<Action>, last: State)
    requires Inv(p) && SenderEnabled(p) && p.fifo.Valid() && p.ring.buffer.Placed()
    requires Executes(SenderStep(p), rest, last)
    ensures Executes(p, [Sender] + rest, last)
  {
    hide Inv, SenderStep;
    assert ([Sender] + rest)[1..] == rest;
  }

  /** It is a run, at the end of which everything is delivered. */
  lemma {:induction false} PlayedIsRun(p: State, others: seq<seq<Action>>)
    requires Plays(p, others)
    ensures var last := Played(p, others);
            && Executes(p, Interleaved(p, others), last)
            && Inv(last) && last.sender == Exited && Delivered(last) && Marked(last)
    decreases |others|
  {
    hide *;
    if p.sender == Exited {
      Gone(p, others);
    } else {
      PlaysOn(p, others);
      var q := AfterOthers(p, others[0]);
      var rest := Interleaved(SenderStep(q), others[1..]);
      PlayedIsRun(SenderStep(q), others[1..]);
      ThenSender(q, rest, Played(p, others));
      Executed(p, others[0], q, [Sender] + rest, Played(p, others));
    }
  }

  /** The sender left to itself for n steps. */
  function Alone(n: nat): seq<seq<Action>> {
    seq(n, _ => [])
  }

  /** Once production is over the sender does not need the others any more. */
  lemma {:induction false} ClosingPlays(p: State, n: nat)
    requires Inv(p) && Closing(p) && StepsLeft(p) <= n
    ensures Plays(p, Alone(n))
    decreases n
  {
    hide *;
    if p.sender == Exited {
      GonePlays(p, Alone(n));
    } else {
      var q := SenderAdvances(p);
      ClosingPlays(q, n - 1);
      PlaysAlone(p, n);
    }
  }

  lemma GonePlays(p: State, others: seq<seq<Action>>)
    requires Inv(p) && p.sender == Exited
    ensures Plays(p, others)
  {
    hide Inv;
  }

  lemma PlaysAlone(p: State, n: nat)
    requires Inv(p) && p.fifo.Valid() && p.ring.buffer.Placed() && SenderEnabled(p) && p.sender != Exited
    requires n > 0 && Plays(SenderStep(p), Alone(n - 1))
    ensures Plays(p, Alone(n))
  {
    AloneIs(p, n);
    hide Inv, SenderStep, SenderEnabled, OthersCan, AfterOthers, Alone;
  }

  lemma AloneIs(p: State, n: nat)
    requires Inv(p) && n > 0
    ensures Alone(n) != [] && Alone(n)[0] == [] && Alone(n)[1..] == Alone(n - 1)
    ensures OthersCan(p, []) && AfterOthers(p, []) == p
  {
    hide Inv;
  }
}
