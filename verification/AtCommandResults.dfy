/** How commands end (mbm/mbm-ril/atchannel.c:946-1020, 1283-1316): every way a command gets its result, and
    what a thread does with it. */
module AtCommandResults {
  import opened Basics
  import opened AtCommandLock
  import opened AtCommandRuns

  /** What a result says of the step that gave it, by thread t out of the state s. */
  ghost predicate ResultFits(s: State, a: Action, t: Tid, result: Result)
    requires t < |s.pcs|
  {
    match result
    case Success =>
      a == Check(t) && !s.readerClosed && s.response == Some(Response(t, Some(true)))
    case Failure =>
      || (a == Check(t) && !s.readerClosed && s.response == Some(Response(t, Some(false))))
      || (a.Request? && a.t == t && s.response == None && (!a.created || !a.written))
      || (a == Lock(t) && s.pcs[t].Entering? && s.pcs[t].job.Send? && s.pcs[t].job.formatted && s.pcs[t].job.text == "")
    case ChannelClosed =>
      a == Check(t) && s.readerClosed && s.response.Some? && s.response.value.owner == t
    case TimedOut =>
      && a == TakeAnswer(t) && s.pcs[t].AnswerCalled? && s.pcs[t].timedOut
      && s.response.Some? && s.response.value.owner == t
      && (s.pcs[t].job.Handshake? || s.pcs[t].job.timed)
    case CommandPending => false
  }

  /** Whether a step takes the response of thread t. */
  predicate TakesResponse(s: State, q: State, t: Tid) {
    s.response.Some? && q.taken == s.taken + [Taken(t, s.response.value)] && q.response == None
  }

  /** In every run: a thread gets a result by exactly these steps. A success is its own answer OK, a failure its own
      answer otherwise, or that nothing could be sent; then, and when the channel is closed, the thread has
      taken its response; a command that times out has one that it has not taken, and a limit. */
  lemma ResultsMean(threads: nat, actions: seq<Action>, s: State, a: Action, t: Tid)
    requires Executes(Init(threads), actions, s) && Enabled(s, a) && (a.Check? ==> s.response.Some?) && t < |s.pcs|
    requires !HasResult(s.pcs[t]) && t < |Next(s, a).pcs| && HasResult(Next(s, a).pcs[t])
    ensures ResultFits(s, a, t, Next(s, a).pcs[t].result)
    ensures a == Check(t) ==> TakesResponse(s, Next(s, a), t)
    ensures a != Check(t) ==> Next(s, a).taken == s.taken
  {
    InitInv(threads);
    RunsKeepInv(Init(threads), actions, s);
    ResultsMeanHere(s, a, t);
  }

  predicate HasResult(pc: Pc) {
    pc.Finishing? || pc.Releasing? || pc.Returning?
  }

  lemma ResultsMeanHere(s: State, a: Action, t: Tid)
    requires Inv(s) && Enabled(s, a) && (a.Check? ==> s.response.Some?) && t < |s.pcs|
    requires !HasResult(s.pcs[t]) && t < |Next(s, a).pcs| && HasResult(Next(s, a).pcs[t])
    ensures ResultFits(s, a, t, Next(s, a).pcs[t].result)
    ensures a == Check(t) ==> TakesResponse(s, Next(s, a), t)
    ensures a != Check(t) ==> Next(s, a).taken == s.taken
  {
    hide *;
    if a == Check(t) {
      CheckResult(s, t);
    } else if a.Request? && a.t == t {
      RequestResult(s, a, t);
    } else if a == Lock(t) {
      LockResult(s, t);
    } else if a == TakeAnswer(t) {
      TakeResult(s, t);
    } else {
      NoNewResult(s, a, t);
    }
  }

  lemma CheckResult(s: State, t: Tid)
    requires Inv(s) && Enabled(s, Check(t)) && s.response.Some? && HasResult(Next(s, Check(t)).pcs[t])
    ensures ResultFits(s, Check(t), t, Next(s, Check(t)).pcs[t].result) && TakesResponse(s, Next(s, Check(t)), t)
  {
    assert ThreadInv(s, t);
    assert s.response.value == Response(t, s.response.value.answer);
    var answer := s.response.value.answer;
    if answer.Some? {
      var success := answer.value;
      assert answer == Some(success);
    }
    hide SentWell, IsOwn, OnlyElsewhere, Formatted;
  }

  lemma RequestResult(s: State, a: Action, t: Tid)
    requires Inv(s) && Enabled(s, a) && a.Request? && a.t == t && HasResult(Next(s, a).pcs[t])
    ensures ResultFits(s, a, t, Next(s, a).pcs[t].result) && Next(s, a).taken == s.taken
  {
    assert ThreadInv(s, t);
    hide SentWell, IsOwn, OnlyElsewhere, Formatted;
  }

  lemma LockResult(s: State, t: Tid)
    requires Inv(s) && Enabled(s, Lock(t)) && HasResult(Next(s, Lock(t)).pcs[t])
    ensures ResultFits(s, Lock(t), t, Next(s, Lock(t)).pcs[t].result) && Next(s, Lock(t)).taken == s.taken
  {
    hide SentWell, IsOwn, OnlyElsewhere;
  }

  lemma TakeResult(s: State, t: Tid)
    requires Inv(s) && Enabled(s, TakeAnswer(t)) && HasResult(Next(s, TakeAnswer(t)).pcs[t])
    ensures ResultFits(s, TakeAnswer(t), t, Next(s, TakeAnswer(t)).pcs[t].result)
    ensures Next(s, TakeAnswer(t)).taken == s.taken
  {
    assert ThreadInv(s, t);
    hide SentWell, IsOwn, OnlyElsewhere, Formatted;
  }

  /** No other step gives a thread a result. */
  lemma NoNewResult(s: State, a: Action, t: Tid)
    requires Enabled(s, a) && (a.Check? ==> s.response.Some?) && t < |s.pcs| && t < |Next(s, a).pcs|
    requires (a.Check? || a.Request? || a.Lock? || a.TakeAnswer?) ==> a.t != t
    ensures HasResult(Next(s, a).pcs[t]) ==> HasResult(s.pcs[t])
  {
    hide Formatted;
  }

  /** A result stays what it is until the thread returns with it. A handshake that has failed fewer than eight times
      tries again, and every other thread is done. */
  lemma ResultsStay(s: State, a: Action, t: Tid)
    requires Inv(s) && Enabled(s, a) && (a.Check? ==> s.response.Some?) && t < |s.pcs| && HasResult(s.pcs[t])
    ensures |Next(s, a).pcs| == |s.pcs|
    ensures var pc, q := s.pcs[t], Next(s, a).pcs[t];
            if a == Return(t) then
              if pc.job.Handshake? && pc.result != Success && pc.tries < 7 then
                q.Requesting? && q.job == pc.job && q.tries == pc.tries + 1
              else q == Idle
            else HasResult(q) && q.result == pc.result && q.job == pc.job && q.tries == pc.tries
  {
    assert ThreadInv(s, t);
    hide SentWell, IsOwn, OnlyElsewhere, Formatted;
  }

  /** What is written for a command whose text is its own, spelled out. */
  lemma TextsAsWritten(text: string)
    ensures Handshake.Text() == "ATE0V1" && Handshake.Timed() && !Handshake.Buffered()
    ensures forall timed :: Send(text, false, timed).Text() == text
    ensures forall timed :: Send(text, true, timed).Text() == if |text| < 512 then text else text[..511]
  {
  }
}
