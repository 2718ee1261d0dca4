/** The collect loop of `run` among the other threads (arm/gator-daemon/Child.cpp:366-378): before each of its
    steps they take theirs, so that its waits come to an end. */
module CollectLoop {
  import opened Basics
  import P = Pipeline
  import E = PipelineEnd
  import F = GatorFifo
  import opened PipelineThreads

  /** A step of another thread; for the sender, with where it is. */
  datatype Move = Move(action: P.Action, at: P.SenderPc)

  /** What the others do before a step of the collect loop, and that step. */
  datatype Round = Round(others: seq<Move>, own: P.Action)

  predicate IsCollectors(a: P.Action) {
    a.Collect? || a.Publish? || a.Guard? || a.SpaceWait?
  }

  ghost predicate MovesCan(p: P.State, moves: seq<Move>)
    decreases |moves|
  {
    P.Inv(p)
    && (moves == []
        || (var m := moves[0];
            !IsCollectors(m.action) && P.Enabled(p, m.action) && (m.action.Sender? ==> m.at == p.sender)
            && MovesCan(P.Next(p, m.action), moves[1..])))
  }

  ghost function AfterMoves(p: P.State, moves: seq<Move>): P.State
    requires MovesCan(p, moves)
    decreases |moves|
  {
    if moves == [] then p else AfterMoves(P.Next(p, moves[0].action), moves[1..])
  }

  function ActionsOf(moves: seq<Move>): seq<P.Action> {
    if moves == [] then [] else [moves[0].action] + ActionsOf(moves[1..])
  }

  lemma MoveSpares(p: P.State, a: P.Action)
    requires P.Inv(p) && P.Enabled(p, a) && !IsCollectors(a)
    ensures P.Inv(P.Next(p, a)) && P.Next(p, a).collector == p.collector
  {
    P.NextKeepsInv(p, a);
    if a.Sender? {
      assert p.fifo.Valid() && p.ring.buffer.Placed();
      SenderSpares(p);
    } else {
      NextIs(p, a);
    }
    hide P.Inv, P.SenderStep, P.SenderEnabled, F.State.Valid;
  }

  lemma SenderSpares(p: P.State)
    requires P.SenderEnabled(p) && p.fifo.Valid() && p.ring.buffer.Placed()
    ensures P.SenderStep(p).collector == p.collector
  {
    StepIs(p);
    hide F.State.Valid, F.State.Read, F.State.Release;
  }

  /** The others leave the collect loop where it is. */
  lemma {:induction false} MovesSpare(p: P.State, moves: seq<Move>)
    requires MovesCan(p, moves)
    ensures var q := AfterMoves(p, moves);
            P.Inv(q) && q.collector == p.collector && P.Executes(p, ActionsOf(moves), q)
    decreases |moves|
  {
    hide P.Inv, P.Next, P.Enabled;
    if moves != [] {
      MoveSpares(p, moves[0].action);
      MovesSpare(P.Next(p, moves[0].action), moves[1..]);
      assert ActionsOf(moves)[1..] == ActionsOf(moves[1..]);
    }
  }

  /** An interleaving up to the end of the collect loop. */
  ghost predicate Collects(p: P.State, rounds: seq<Round>)
    decreases |rounds|
  {
    P.Inv(p)
    && (p.collector == P.Ended
        || (&& rounds != [] && MovesCan(p, rounds[0].others) && IsCollectors(rounds[0].own)
            && (MovesSpare(p, rounds[0].others);
                var q := AfterMoves(p, rounds[0].others);
                P.Enabled(q, rounds[0].own) && Collects(P.Next(q, rounds[0].own), rounds[1..]))))
  }

  ghost function Collected(p: P.State, rounds: seq<Round>): P.State
    requires Collects(p, rounds)
    decreases |rounds|
  {
    if p.collector == P.Ended then p
    else
      MovesSpare(p, rounds[0].others);
      Collected(P.Next(AfterMoves(p, rounds[0].others), rounds[0].own), rounds[1..])
  }

  ghost function Interleaved(p: P.State, rounds: seq<Round>): seq<P.Action>
    requires Collects(p, rounds)
    decreases |rounds|
  {
    if p.collector == P.Ended then []
    else
      MovesSpare(p, rounds[0].others);
      ActionsOf(rounds[0].others)
      + ([rounds[0].own] + Interleaved(P.Next(AfterMoves(p, rounds[0].others), rounds[0].own), rounds[1..]))
  }

  /** The others have had their steps; the collect loop can take its own, and so on to the state `end`. */
  ghost predicate Poised(p: P.State, own: P.Action, rounds: seq<Round>, end: P.State) {
    && P.Inv(p) && IsCollectors(own) && P.Enabled(p, own)
    && Collects(P.Next(p, own), rounds) && Collected(P.Next(p, own), rounds) == end
  }

  lemma PoisedIs(p: P.State, own: P.Action, rounds: seq<Round>, end: P.State)
    requires Poised(p, own, rounds, end)
    ensures P.Inv(p) && IsCollectors(own) && P.Enabled(p, own) && P.Inv(P.Next(p, own))
    ensures Collects(P.Next(p, own), rounds) && Collected(P.Next(p, own), rounds) == end
  {
    P.NextKeepsInv(p, own);
    hide P.Inv, P.Next, P.Enabled;
  }

  lemma CollectsOn(p: P.State, rounds: seq<Round>)
    requires Collects(p, rounds) && p.collector != P.Ended
    ensures rounds != [] && MovesCan(p, rounds[0].others) && P.Inv(p)
    ensures var q, own := AfterMoves(p, rounds[0].others), rounds[0].own;
            && P.Inv(q) && Poised(q, own, rounds[1..], Collected(p, rounds)) && P.Enabled(q, own)
            && q.collector == p.collector && P.Executes(p, ActionsOf(rounds[0].others), q)
            && Collects(P.Next(q, own), rounds[1..]) && Collected(p, rounds) == Collected(P.Next(q, own), rounds[1..])
            && Interleaved(p, rounds)
               == ActionsOf(rounds[0].others) + ([own] + Interleaved(P.Next(q, own), rounds[1..]))
  {
    MovesSpare(p, rounds[0].others);
    hide P.Inv, P.Next, P.Enabled, MovesCan, AfterMoves, P.Executes, ActionsOf;
  }

  lemma LoopOver(p: P.State, rounds: seq<Round>)
    requires Collects(p, rounds) && p.collector == P.Ended
    ensures P.Inv(p) && P.Executes(p, [], p) && Collected(p, rounds) == p && Interleaved(p, rounds) == []
  {
    hide P.Inv;
  }

  lemma ThenOwn(p: P.State, own: P.Action, rest: seq<P.Action>, last: P.State)
    requires P.Inv(p) && P.Enabled(p, own) && P.Executes(P.Next(p, own), rest, last)
    ensures P.Executes(p, [own] + rest, last)
  {
    hide P.Inv, P.Next, P.Enabled;
    assert ([own] + rest)[1..] == rest;
  }

  /** It is a run, at the end of which the end mark is in the FIFO. */
  lemma {:induction false} CollectedIsRun(p: P.State, rounds: seq<Round>)
    requires Collects(p, rounds)
    ensures var last := Collected(p, rounds);
            && P.Executes(p, Interleaved(p, rounds), last) && P.Inv(last)
            && last.collector == P.Ended && last.fifo.end
    decreases |rounds|
  {
    hide *;
    if p.collector == P.Ended {
      LoopOver(p, rounds);
      EndedIsMarked(p);
    } else {
      CollectsOn(p, rounds);
      var q, own := AfterMoves(p, rounds[0].others), rounds[0].own;
      CollectedIsRun(P.Next(q, own), rounds[1..]);
      ThenOwn(q, own, Interleaved(P.Next(q, own), rounds[1..]), Collected(p, rounds));
      E.Executed(p, ActionsOf(rounds[0].others), q, [own] + Interleaved(P.Next(q, own), rounds[1..]),
                 Collected(p, rounds));
    }
  }

  lemma EndedIsMarked(p: P.State)
    requires P.Inv(p) && p.collector == P.Ended
    ensures p.fifo.end
  {
    hide P.FifoPart, P.RingPart, F.State.Valid;
  }

  // ----- the loop

  /** What the other threads do before a step of the collect loop. */
  method Meanwhile(s: Session, rounds: seq<Round>, i: nat, ghost p: P.State, ghost end: P.State)
      returns (ghost q: P.State)
    requires s.Is(p) && i <= |rounds| && Collects(p, rounds[i..]) && Collected(p, rounds[i..]) == end
    requires p.collector != P.Ended
    modifies s, s.sender, s.collectorFifo, s.collectorFifo.buffer, s.collectorFifo.waitForSpaceSem, s.buffer,
      s.buffer.buf, s.senderSem, s.haltPipeline
    ensures i < |rounds| && s.Is(q) && Poised(q, rounds[i].own, rounds[i + 1..], end) && q.collector == p.collector
  {
    hide *;
    CollectsOn(p, rounds[i..]);
    assert rounds[i..][0] == rounds[i] && rounds[i..][1..] == rounds[i + 1..];
    var moves := rounds[i].others;
    q := p;
    assert moves[0..] == moves;
    for k := 0 to |moves|
      invariant s.Is(q) && MovesCan(q, moves[k..]) && AfterMoves(q, moves[k..]) == AfterMoves(p, moves)
    {
      MovesGoOn(q, moves[k..]);
      assert moves[k..][0] == moves[k] && moves[k..][1..] == moves[k + 1..];
      if moves[k].action.Sender? {
        SenderIs(q, moves[k].action);
        s.SenderMove(moves[k].at, q);
      } else {
        s.Other(moves[k].action, q);
      }
      q := P.Next(q, moves[k].action);
    }
    MovesStop(q);
    assert moves[|moves|..] == [];
  }

  lemma MovesGoOn(p: P.State, moves: seq<Move>)
    requires MovesCan(p, moves) && moves != []
    ensures var m := moves[0];
            && P.Inv(p) && P.Enabled(p, m.action) && !IsCollectors(m.action) && (m.action.Sender? ==> m.at == p.sender)
            && MovesCan(P.Next(p, m.action), moves[1..])
            && AfterMoves(p, moves) == AfterMoves(P.Next(p, m.action), moves[1..])
  {
    hide P.Inv, P.Next, P.Enabled;
  }

  lemma MovesStop(p: P.State)
    requires MovesCan(p, [])
    ensures AfterMoves(p, []) == p
  {
  }

  lemma SenderIs(p: P.State, a: P.Action)
    requires P.Inv(p) && P.Enabled(p, a) && a.Sender?
    ensures P.SenderEnabled(p) && p.fifo.Valid() && p.ring.buffer.Placed() && P.Next(p, a) == P.SenderStep(p)
  {
    hide P.FifoPart, P.RingPart, F.State.Valid, P.SenderStep;
  }

  /** The step of the collect loop, by where it is, and where it gets. */
  lemma OwnIs(p: P.State, own: P.Action)
    requires P.Inv(p) && IsCollectors(own) && P.Enabled(p, own)
    ensures p.collector == P.Collecting ==> own.Collect? && P.Next(p, own).collector == P.Collected(own.count)
    ensures p.collector.Collected? ==> own.Publish? && P.Next(p, own).collector == P.AtGuard(p.collector.count > 0)
    ensures p.collector.AtGuard? ==>
      && own.Guard?
      && P.Next(p, own).collector
         == if P.GuardStep(p).collector.Blocked? then P.Blocked(p.collector.more)
            else if p.collector.more then P.Collecting else P.Ended
    ensures p.collector.Blocked? ==> own.SpaceWait? && P.Next(p, own).collector == P.AtGuard(p.collector.more)
  {
    NextIs(p, own);
    hide P.Inv, P.Next, F.State.Fill, F.State.Publish, F.State.IsFull, F.State.WillFill;
  }

  /** The test of the loop around the wait in `write`. */
  method GuardAgain(s: Session, rounds: seq<Round>, i: nat, ghost p: P.State, ghost end: P.State)
      returns (full: bool, ghost last: P.State)
    requires s.Is(p) && i <= |rounds| && Collects(p, rounds[i..]) && Collected(p, rounds[i..]) == end
    requires p.collector.AtGuard?
    modifies s, s.sender, s.collectorFifo, s.collectorFifo.buffer, s.collectorFifo.waitForSpaceSem, s.buffer,
      s.buffer.buf, s.senderSem, s.haltPipeline
    ensures i < |rounds| && s.Is(last) && Collects(last, rounds[i + 1..]) && Collected(last, rounds[i + 1..]) == end
    ensures last.collector
         == if full then P.Blocked(p.collector.more) else if p.collector.more then P.Collecting else P.Ended
  {
    hide *;
    ghost var q := Meanwhile(s, rounds, i, p, end);
    PoisedIs(q, rounds[i].own, rounds[i + 1..], end);
    OwnIs(q, rounds[i].own);
    NextIs(q, rounds[i].own);
    full := s.Guard(q);
    last := P.Next(q, rounds[i].own);
  }

  /** The collect loop, whatever the other threads do in between, as long as they let it get to its end: it takes
      the steps of `Pipeline`, and in the end the FIFO has its end mark. */
  method CollectLoop(s: Session, rounds: seq<Round>, ghost p: P.State) returns (ghost last: P.State)
    requires s.Is(p) && Collects(p, rounds) && p.collector == P.Collecting
    modifies s, s.sender, s.collectorFifo, s.collectorFifo.buffer, s.collectorFifo.waitForSpaceSem, s.buffer,
      s.buffer.buf, s.senderSem, s.haltPipeline
    ensures s.Is(last) && last == Collected(p, rounds) && last.collector == P.Ended && last.fifo.end
  {
    hide *;
    ghost var end := Collected(p, rounds);
    var i, more := 0, true;
    last := p;
    assert rounds[0..] == rounds;
    while more
      invariant i <= |rounds| && s.Is(last) && Collects(last, rounds[i..]) && Collected(last, rounds[i..]) == end
      invariant last.collector == if more then P.Collecting else P.Ended
      decreases |rounds| - i
    {
      ghost var q := Meanwhile(s, rounds, i, last, end);
      PoisedIs(q, rounds[i].own, rounds[i + 1..], end);
      OwnIs(q, rounds[i].own);
      NextIs(q, rounds[i].own);
      var bytesCollected := rounds[i].own.count;
      s.Collect(rounds[i].own.data, bytesCollected, q);
      last, i := P.Next(q, rounds[i].own), i + 1;
      more := bytesCollected > 0;
      q := Meanwhile(s, rounds, i, last, end);
      PoisedIs(q, rounds[i].own, rounds[i + 1..], end);
      OwnIs(q, rounds[i].own);
      NextIs(q, rounds[i].own);
      s.Publish(q);
      last, i := P.Next(q, rounds[i].own), i + 1;
      var full;
      full, last := GuardAgain(s, rounds, i, last, end);
      i := i + 1;
      while full
        invariant i <= |rounds| && s.Is(last) && Collects(last, rounds[i..]) && Collected(last, rounds[i..]) == end
        invariant last.collector == if full then P.Blocked(more) else if more then P.Collecting else P.Ended
        decreases |rounds| - i
      {
        q := Meanwhile(s, rounds, i, last, end);
        PoisedIs(q, rounds[i].own, rounds[i + 1..], end);
        OwnIs(q, rounds[i].own);
        NextIs(q, rounds[i].own);
        s.SpaceWait(q);
        last, i := P.Next(q, rounds[i].own), i + 1;
        full, last := GuardAgain(s, rounds, i, last, end);
        i := i + 1;
      }
    }
    CollectedIsRun(p, rounds);
    LoopOver(last, rounds[i..]);
  }
}
