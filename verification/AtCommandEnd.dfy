/** How a command that has been answered ends, whatever the other threads do meanwhile: a bound on the steps of
    its thread, and that nothing holds it up but a thread that can itself go on. */
module AtCommandEnd {
  import opened Basics
  import opened AtCommandLock
  import opened AtCommandRuns

  /** The thread has all it waited for: it is past its last wait, and only has to get commandmutex, take its
      response, and let go. */
  predicate Ending(s: State, t: Tid) {
    t < |s.pcs| &&
    match s.pcs[t]
    case AnswerCalled(_, _, timedOut) => timedOut || Answered(s)
    case Checking(_, _) => Answered(s)
    case Finishing(_, _, _) => true
    case Releasing(_, _, _) => true
    case Returning(_, _, _) => true
    case _ => false
  }

  predicate Answered(s: State) {
    s.response.Some? && (s.response.value.answer.Some? || s.readerClosed)
  }

  /** The steps it has left. */
  function Left(pc: Pc): nat {
    match pc
    case AnswerCalled(_, _, _) => 5
    case Checking(_, _) => 4
    case Finishing(_, _, _) => 3
    case Releasing(_, _, _) => 2
    case Returning(_, _, _) => 1
    case _ => 0
  }

  /** The steps of thread t itself. */
  predicate IsStepOf(a: Action, t: Tid) {
    match a
    case Call(u, _) => u == t
    case Lock(u) => u == t
    case Request(u, _, _) => u == t
    case TakeTurn(u) => u == t
    case Check(u) => u == t
    case TakeAnswer(u) => u == t
    case Finish(u) => u == t
    case Release(u) => u == t
    case Return(u) => u == t
    case _ => false
  }

  function StepsOf(actions: seq<Action>, t: Tid): nat {
    if actions == [] then 0 else StepsOf(actions[1..], t) + if IsStepOf(actions[0], t) then 1 else 0
  }

  /** The final response reaches the thread whose command it answers, wherever that is. */
  lemma AnswerStarts(s: State, success: bool, woken: Option<Tid>)
    requires Inv(s) && Enabled(s, FinalResponse(success, woken))
    ensures Ending(Next(s, FinalResponse(success, woken)), s.response.value.owner)
    ensures s.requestMutex == Some(s.response.value.owner)
  {
    var t := s.response.value.owner;
    hide SentWell, IsOwn, OnlyElsewhere;
    assert ThreadInv(s, t);
    assert woken.Some? ==> ThreadInv(s, woken.value);
  }

  /** Nor is anybody forgotten when the channel closes. */
  lemma CloseStarts(s: State, woken: Option<Tid>, t: Tid)
    requires Inv(s) && Enabled(s, Close(woken)) && t < |s.pcs| && s.pcs[t].Pending()
    ensures Ending(Next(s, Close(woken)), t)
  {
    hide SentWell, IsOwn, OnlyElsewhere;
    assert ThreadInv(s, t);
    assert woken.Some? ==> ThreadInv(s, woken.value);
  }

  /** The thread's own step brings it closer to its end, which the last of them is. */
  lemma OwnStepEnds(s: State, a: Action, t: Tid)
    requires Inv(s) && Enabled(s, a) && Ending(s, t) && IsStepOf(a, t) && (a.Check? ==> s.response.Some?)
    ensures Left(s.pcs[t]) > 0
    ensures var q := Next(s, a);
            && |q.pcs| == |s.pcs|
            && if a.Return? then Left(s.pcs[t]) == 1 else Ending(q, t) && Left(q.pcs[t]) < Left(s.pcs[t])
  {
    NextKeepsThreads(s, a);
    hide SentWell, IsOwn, OnlyElsewhere, SharedInv, ReturnStep;
    assert ThreadInv(s, t);
  }

  /** Other threads, the modem and spurious wake-ups leave it where it is. */
  lemma OtherStepSpares(s: State, a: Action, t: Tid)
    requires Inv(s) && Enabled(s, a) && Ending(s, t) && !IsStepOf(a, t) && (a.Check? ==> s.response.Some?)
    ensures var q := Next(s, a); |q.pcs| == |s.pcs| && q.pcs[t] == s.pcs[t] && Ending(q, t)
  {
    hide SentWell, IsOwn, OnlyElsewhere, Formatted;
    NextKeepsThreads(s, a);
    assert ThreadInv(s, t);
    if a.Check? || a.Finish? {
      assert ThreadInv(s, a.t);
    }
  }

  /** The thread can take its next step, or it waits for commandmutex, which another thread holds that can take
      its own. */
  predicate NotStuck(s: State, t: Tid)
    requires t < |s.pcs|
  {
    var own := OwnStep(s.pcs[t], t);
    && own.Some?
    && (Enabled(s, own.value)
        || (&& s.commandMutex.Some? && s.commandMutex.value != t && s.commandMutex.value < |s.pcs|
            && var u := s.commandMutex.value;
               OwnStep(s.pcs[u], u).Some? && Enabled(s, OwnStep(s.pcs[u], u).value)))
  }

  lemma EndingIsNotStuck(s: State, t: Tid)
    requires Inv(s) && Ending(s, t)
    ensures NotStuck(s, t)
  {
    hide SentWell, IsOwn, OnlyElsewhere;
    assert ThreadInv(s, t);
    if s.commandMutex.Some? {
      assert ThreadInv(s, s.commandMutex.value);
    }
  }

  /** The thread has returned and let go of both mutexes, or a handshake that failed tries again. */
  predicate Over(s: State, t: Tid) {
    && t < |s.pcs| && s.requestMutex != Some(t)
    && (s.pcs[t].Idle? || (s.pcs[t].Requesting? && s.pcs[t].job.Handshake?))
    && (s.pcs[t].Idle? ==> s.commandMutex != Some(t))
  }

  lemma ReturnEnds(s: State, t: Tid)
    requires Inv(s) && Enabled(s, Return(t))
    ensures Over(Next(s, Return(t)), t)
  {
    hide SentWell, IsOwn, OnlyElsewhere, SharedInv;
    assert ThreadInv(s, t);
  }

  /** In every interleaving the thread returns with its fifth own step at the latest, and until then is never
      stuck: either it returns within the run, after the first k steps, or it is still on its way at the end. */
  lemma {:induction false} AnsweredCommandEnds(s: State, actions: seq<Action>, last: State, t: Tid)
    returns (k: nat, mid: State)
    requires Inv(s) && Ending(s, t) && Executes(s, actions, last)
    ensures k <= |actions| && Executes(s, actions[..k], mid) && StepsOf(actions[..k], t) <= Left(s.pcs[t]) <= 5
    ensures || (k > 0 && actions[k - 1] == Return(t) && Over(mid, t))
            || (&& k == |actions| && mid == last && Ending(last, t) && NotStuck(last, t)
                && StepsOf(actions, t) + Left(last.pcs[t]) <= Left(s.pcs[t]))
    decreases |actions|
  {
    hide Inv, Next, Enabled, Ending, NotStuck, IsStepOf, Over;
    EndingIsInside(s, t);
    if actions == [] {
      k, mid := 0, s;
      EndingIsNotStuck(s, t);
    } else {
      var a, q := actions[0], Next(s, actions[0]);
      NextKeepsInv(s, a);
      if IsStepOf(a, t) {
        OwnStepEnds(s, a, t);
        if a.Return? {
          ReturnIsOwn(a, t);
          ReturnEnds(s, t);
          k, mid := 1, q;
          assert actions[..1][0] == a && actions[..1][1..] == [];
          return;
        }
      } else {
        OtherStepSpares(s, a, t);
      }
      k, mid := AnsweredCommandEnds(q, actions[1..], last, t);
      k := k + 1;
      assert actions[..k][0] == a && actions[..k][1..] == actions[1..][..k - 1];
      assert k == |actions| ==> actions[..k] == actions;
    }
  }

  lemma EndingIsInside(s: State, t: Tid)
    requires Ending(s, t)
    ensures t < |s.pcs| && Left(s.pcs[t]) <= 5
  {
  }

  lemma ReturnIsOwn(a: Action, t: Tid)
    requires IsStepOf(a, t) && a.Return?
    ensures a == Return(t)
  {
  }
}
