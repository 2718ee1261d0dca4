/** What the locking of AT commands (`AtCommandLock`) means over whole runs: one command at a time, nobody left
    asleep, no deadlock; and which text is written to the modem. */
module AtCommandRuns {
  import opened Basics
  import opened AtCommandLock

  // ----- runs

  predicate Executes(s: State, actions: seq<Action>, last: State)
    decreases |actions|
  {
    if actions == [] then last == s
    else
      && Enabled(s, actions[0]) && (actions[0].Check? ==> s.response.Some?)
      && Executes(Next(s, actions[0]), actions[1..], last)
  }

  lemma {:induction false} RunsKeepInv(s: State, actions: seq<Action>, last: State)
    requires Inv(s) && Executes(s, actions, last)
    ensures Inv(last)
    decreases |actions|
  {
    hide Inv, Next, Enabled;
    if actions != [] {
      NextKeepsInv(s, actions[0]);
      RunsKeepInv(Next(s, actions[0]), actions[1..], last);
    }
  }

  /** In every run of any number of threads: a response is there only while requestmutex is held, by the
      thread whose command it is for; a thread that gets requestmutex never finds another command pending;
      and a thread only ever takes the response to its own command. */
  lemma OneCommandAtATime(threads: nat, actions: seq<Action>, s: State)
    requires Executes(Init(threads), actions, s)
    ensures s.response.Some? ==> s.requestMutex == Some(s.response.value.owner)
    ensures forall t | 0 <= t < |s.pcs| && s.pcs[t].Requesting? && s.requestMutex == None :: s.response == None
    ensures forall t | 0 <= t < |s.pcs| && s.pcs[t].Finishing? :: s.pcs[t].result != CommandPending
    ensures forall k | 0 <= k < |s.taken| :: s.taken[k].taker == s.taken[k].response.owner
  {
    InitInv(threads);
    RunsKeepInv(Init(threads), actions, s);
    forall t | 0 <= t < |s.pcs| && s.pcs[t].Finishing? ensures s.pcs[t].result != CommandPending {
      assert ThreadInv(s, t);
    }
  }

  /** At most one thread is past the lock of either mutex. */
  lemma MutualExclusion(threads: nat, actions: seq<Action>, s: State, t: Tid, u: Tid)
    requires Executes(Init(threads), actions, s) && t < |s.pcs| && u < |s.pcs|
    ensures s.pcs[t].HoldsCommand() && s.pcs[u].HoldsCommand() ==> t == u
    ensures s.pcs[t].HoldsRequest() && s.pcs[u].HoldsRequest() ==> t == u
  {
    InitInv(threads);
    RunsKeepInv(Init(threads), actions, s);
    assert ThreadInv(s, t) && ThreadInv(s, u);
  }

  /** Whoever waits on requestcond waits for a thread that holds requestmutex and has still to broadcast. */
  lemma WaitersHaveAHolder(threads: nat, actions: seq<Action>, s: State, t: Tid)
    requires Executes(Init(threads), actions, s) && t < |s.pcs| && s.pcs[t].AwaitingTurn?
    ensures s.requestMutex.Some? && s.requestMutex.value < |s.pcs|
    ensures var pc := s.pcs[s.requestMutex.value]; pc.Pending() || pc.Finishing?
  {
    InitInv(threads);
    RunsKeepInv(Init(threads), actions, s);
    assert ThreadInv(s, t);
    assert ThreadInv(s, s.requestMutex.value);
  }

  // ----- no deadlock

  /** The next thing a thread does by itself, without being woken. */
  function OwnStep(pc: Pc, t: Tid): Option<Action> {
    match pc
    case Entering(_) => Some(Lock(t))
    case Requesting(_, _, _, _) => Some(Request(t, true, true))
    case TurnCalled(_, _, _) => Some(TakeTurn(t))
    case Checking(_, _) => Some(Check(t))
    case AnswerCalled(_, _, _) => Some(TakeAnswer(t))
    case Finishing(_, _, _) => Some(Finish(t))
    case Releasing(_, _, _) => Some(Release(t))
    case Returning(_, _, _) => Some(Return(t))
    case _ => None
  }

  /** Either some thread can go on by itself, or all who are in a call wait for the modem: one for its final
      response, on a channel that is open, and the others for that one. */
  lemma NoDeadlock(threads: nat, actions: seq<Action>, s: State, t: Tid) returns (u: Tid)
    requires Executes(Init(threads), actions, s) && t < |s.pcs| && !s.pcs[t].Idle?
    ensures u < |s.pcs|
    ensures (OwnStep(s.pcs[u], u).Some? && Enabled(s, OwnStep(s.pcs[u], u).value))
         || (&& s.pcs[u].AwaitingAnswer? && s.requestMutex == Some(u) && !s.readerClosed
             && s.response == Some(Response(u, None))
             && s.commandMutex == None)
  {
    InitInv(threads);
    RunsKeepInv(Init(threads), actions, s);
    assert ThreadInv(s, t);
    if s.commandMutex.Some? {
      u := s.commandMutex.value;
      assert ThreadInv(s, u);
    } else if s.pcs[t].AwaitingTurn? {
      u := s.requestMutex.value;
      assert ThreadInv(s, u);
    } else {
      u := t;
    }
  }

  lemma Then(s: State, a: Action, rest: seq<Action>, last: State)
    requires Enabled(s, a) && (a.Check? ==> s.response.Some?) && Executes(Next(s, a), rest, last)
    ensures Executes(s, [a] + rest, last)
  {
    hide Next, Enabled;
    assert ([a] + rest)[1..] == rest;
  }

  lemma {:induction false} Joined(s: State, a: seq<Action>, mid: State, b: seq<Action>, last: State)
    requires Executes(s, a, mid) && Executes(mid, b, last)
    ensures Executes(s, a + b, last)
    decreases |a|
  {
    hide Next, Enabled;
    if a == [] {
      assert a + b == b;
    } else {
      Joined(Next(s, a[0]), a[1..], mid, b, last);
      assert (a + b)[1..] == a[1..] + b;
    }
  }

  lemma One(s: State, a: Action)
    requires Enabled(s, a) && (a.Check? ==> s.response.Some?)
    ensures Executes(s, [a], Next(s, a))
  {
    hide Next, Enabled;
    assert Executes(Next(s, a), [], Next(s, a));
    Then(s, a, [], Next(s, a));
  }

  /** A thread that has a result wakes those who wait and lets go of both mutexes. */
  lemma ResultEndsTheCommand(s: State, t: Tid) returns (last: State)
    requires t < |s.pcs| && s.pcs[t].Finishing?
    requires !s.pcs[t].job.Handshake? || s.pcs[t].result == Success || s.pcs[t].tries + 1 == HANDSHAKE_RETRY_COUNT
    ensures Executes(s, [Finish(t), Release(t), Return(t)], last)
    ensures last == s.(pcs := WakeAll(s.pcs)[t := Idle], response := None, requestMutex := None, commandMutex := None)
  {
    var s4 := Next(s, Finish(t));
    var s5 := Next(s4, Release(t));
    last := Next(s5, Return(t));
    assert last.pcs == WakeAll(s.pcs)[t := Idle];
    hide Next, Enabled, WakeAll;
    One(s5, Return(t));
    Then(s4, Release(t), [Return(t)], last);
    Then(s, Finish(t), [Release(t), Return(t)], last);
  }

  lemma AnswerIsTaken(s: State, t: Tid, success: bool) returns (mid: State)
    requires t < |s.pcs| && s.pcs[t].AwaitingAnswer? && s.commandMutex == None && !s.readerClosed
    requires s.response == Some(Response(t, None))
    ensures Executes(s, [FinalResponse(success, Some(t)), TakeAnswer(t), Check(t)], mid)
    ensures mid == s.(pcs := s.pcs[t := Finishing(s.pcs[t].job, s.pcs[t].tries, if success then Success else Failure)],
                      response := None, commandMutex := Some(t),
                      taken := s.taken + [Taken(t, Response(t, Some(success)))])
  {
    var s1 := Next(s, FinalResponse(success, Some(t)));
    var s2 := Next(s1, TakeAnswer(t));
    mid := Next(s2, Check(t));
    hide Next, Enabled;
    One(s2, Check(t));
    Then(s1, TakeAnswer(t), [Check(t)], mid);
    Then(s, FinalResponse(success, Some(t)), [TakeAnswer(t), Check(t)], mid);
  }

  /** Once the modem has answered, the waiting thread's own steps end its command: it takes the response,
      all who wait for their turn become runnable, and both mutexes are free. */
  lemma AnswerEndsTheCommand(s: State, t: Tid, success: bool) returns (last: State)
    requires Inv(s) && t < |s.pcs| && s.pcs[t].AwaitingAnswer? && s.commandMutex == None
    requires !s.pcs[t].job.Handshake? || success || s.pcs[t].tries + 1 == HANDSHAKE_RETRY_COUNT
    ensures Executes(s, [FinalResponse(success, Some(t)), TakeAnswer(t), Check(t), Finish(t), Release(t), Return(t)],
        last)
    ensures last == s.(pcs := WakeAll(s.pcs)[t := Idle], response := None, requestMutex := None, commandMutex := None,
                       taken := s.taken + [Taken(t, Response(t, Some(success)))])
    ensures forall u | 0 <= u < |last.pcs| :: !last.pcs[u].AwaitingTurn?
  {
    assert ThreadInv(s, t);
    hide Inv, ThreadInv, SharedInv, Next, Enabled, Executes;
    AnswerIsOwn(s, t);
    var mid := AnswerIsTaken(s, t, success);
    last := ResultEndsTheCommand(mid, t);
    assert last.pcs == WakeAll(s.pcs)[t := Idle];
    Joined(s, [FinalResponse(success, Some(t)), TakeAnswer(t), Check(t)], mid, [Finish(t), Release(t), Return(t)],
        last);
    assert [FinalResponse(success, Some(t)), TakeAnswer(t), Check(t)] + [Finish(t), Release(t), Return(t)]
        == [FinalResponse(success, Some(t)), TakeAnswer(t), Check(t), Finish(t), Release(t), Return(t)];
  }

  lemma AnswerIsOwn(s: State, t: Tid)
    requires Inv(s) && t < |s.pcs| && s.pcs[t].AwaitingAnswer?
    ensures !s.readerClosed && s.response == Some(Response(t, None))
  {
    assert ThreadInv(s, t);
  }

  // ----- the shared buffer

  /** What is written to the modem. A command without arguments is written as given. One that was put
      together in the static buffer goes out as what was put there last. After its own, only other threads
      have put theirs there, and only threads of other channels if it did not have to wait. It goes out wrong
      exactly if there are such and the last of them has a different text. */
  lemma WrittenIsLastFormatted(threads: nat, actions: seq<Action>, s: State, k: nat)
    requires Executes(Init(threads), actions, s) && k < |s.sent|
    ensures |s.pcs| == threads
    ensures var e := s.sent[k];
            && (!e.job.Buffered() ==> e.text == e.job.Text())
            && (e.job.Buffered() ==>
                  && 0 < e.own <= e.formats <= |s.formats| && s.formats[e.own - 1] == Put(e.thread, e.job.Text())
                  && (forall j | e.own <= j < e.formats :: s.formats[j].thread != e.thread)
                  && (!e.waited ==> forall j | e.own <= j < e.formats :: s.formats[j].thread >= threads)
                  && (e.text != e.job.Text() <==> e.own < e.formats && s.formats[e.formats - 1].text != e.job.Text()))
  {
    InitInv(threads);
    RunsKeepInv(Init(threads), actions, s);
    RunsKeepThreads(Init(threads), actions, s);
    var e := s.sent[k];
    assert SentWell(e, s.formats, threads);
    if e.job.Buffered() {
      assert IsOwn(s.formats[..e.formats], e.own, e.thread, e.job.Text());
      hide Formatted;
      assert forall j | 0 <= j < e.formats :: s.formats[..e.formats][j] == s.formats[j];
    }
  }

  lemma {:induction false} RunsKeepThreads(s: State, actions: seq<Action>, last: State)
    requires Executes(s, actions, last)
    ensures |last.pcs| == |s.pcs|
    decreases |actions|
  {
    hide Enabled, Next;
    if actions != [] {
      NextKeepsThreads(s, actions[0]);
      RunsKeepThreads(Next(s, actions[0]), actions[1..], last);
    }
  }

  lemma NextKeepsThreads(s: State, a: Action)
    requires Enabled(s, a) && (a.Check? ==> s.response.Some?)
    ensures |Next(s, a).pcs| == |s.pcs|
  {
  }

  function Cmd(text: string): Job {
    Send(text, true, true)
  }

  /** Thread 0 waits for its answer, and the others for their turn. */
  function Queued(): State {
    State([AwaitingAnswer(Cmd("A"), 0), AwaitingTurn(Cmd("B"), 0, 2), AwaitingTurn(Cmd("C"), 0, 3)],
          None, Some(0), Some(Response(0, None)), false, "C", [Put(0, "A"), Put(1, "B"), Put(2, "C")],
          [Sent(0, Cmd("A"), "A", false, 1, 1)], [])
  }

  /** A command is issued by thread t of three, and it gets as far as it can. */
  lemma Issue(s: State, t: Tid, text: string, last: State) returns (actions: seq<Action>)
    requires |s.pcs| == 3 && t < 3 && s.pcs[t] == Idle && s.commandMutex == None && s.requestMutex.Some?
    requires text != "" && |text| < BUFFSIZE
    requires last == At(s, t, AwaitingTurn(Cmd(text), 0, |s.formats| + 1)).(
                       strbuf := text, formats := s.formats + [Put(t, text)])
    ensures Executes(s, actions, last)
  {
    var s1 := Next(s, Call(t, Cmd(text)));
    var s2 := Next(s1, Lock(t));
    var s3 := Next(s2, Request(t, true, true));
    assert s3 == last;
    actions := [Call(t, Cmd(text)), Lock(t), Request(t, true, true)];
    One(s2, Request(t, true, true));
    Then(s1, Lock(t), [Request(t, true, true)], s3);
    Then(s, Call(t, Cmd(text)), [Lock(t), Request(t, true, true)], s3);
  }

  /** The first command gets the buffer and both mutexes. */
  lemma FirstLock(s: State, text: string, q: State)
    requires |s.pcs| > 0 && s.pcs[0] == Idle && s.commandMutex == None && text != "" && |text| < BUFFSIZE
    requires var n := |s.formats| + 1;
             q == At(s, 0, Requesting(Cmd(text), 0, false, n)).(
                    commandMutex := Some(0), strbuf := text, formats := s.formats + [Put(0, text)])
    ensures Executes(s, [Call(0, Cmd(text)), Lock(0)], q)
  {
    var s1 := Next(s, Call(0, Cmd(text)));
    assert Next(s1, Lock(0)) == q;
    hide Next;
    One(s1, Lock(0));
    Then(s, Call(0, Cmd(text)), [Lock(0)], q);
  }

  lemma FirstIssue(last: State) returns (actions: seq<Action>)
    requires last == State([AwaitingAnswer(Cmd("A"), 0), Idle, Idle], None, Some(0), Some(Response(0, None)), false,
                           "A", [Put(0, "A")], [Sent(0, Cmd("A"), "A", false, 1, 1)], [])
    ensures Executes(Init(3), actions, last)
  {
    var s := Init(3);
    assert s.pcs == [Idle, Idle, Idle];
    var locked := At(s, 0, Requesting(Cmd("A"), 0, false, 1));
    var s2 := locked.(commandMutex := Some(0), strbuf := "A", formats := [Put(0, "A")]);
    FirstLock(s, "A", s2);
    var s3 := Next(s2, Request(0, true, true));
    var s4 := Next(s3, Check(0));
    assert s4 == last;
    hide Next, Executes;
    One(s3, Check(0));
    Then(s2, Request(0, true, true), [Check(0)], s4);
    Joined(s, [Call(0, Cmd("A")), Lock(0)], s2, [Request(0, true, true)] + [Check(0)], s4);
    actions := [Call(0, Cmd("A")), Lock(0)] + ([Request(0, true, true)] + [Check(0)]);
  }

  lemma QueuedIsReached() returns (actions: seq<Action>)
    ensures Executes(Init(3), actions, Queued())
  {
    var a := State([AwaitingAnswer(Cmd("A"), 0), Idle, Idle], None, Some(0), Some(Response(0, None)), false, "A",
                   [Put(0, "A")], [Sent(0, Cmd("A"), "A", false, 1, 1)], []);
    var b := At(a, 1, AwaitingTurn(Cmd("B"), 0, 2)).(strbuf := "B", formats := a.formats + [Put(1, "B")]);
    assert Queued() == At(b, 2, AwaitingTurn(Cmd("C"), 0, 3)).(strbuf := "C", formats := b.formats + [Put(2, "C")]);
    hide Executes;
    var first := FirstIssue(a);
    var second := Issue(a, 1, "B", b);
    var third := Issue(b, 2, "C", Queued());
    Joined(Init(3), first, a, second, b);
    Joined(Init(3), first + second, b, third, Queued());
    actions := first + second + third;
  }

  /** The other case does occur: thread 1, having waited for its turn, writes the command of thread 2. */
  lemma MixUp() returns (actions: seq<Action>, last: State)
    ensures Executes(Init(3), actions, last)
    ensures |last.sent| == 2 && last.sent[1] == Sent(1, Cmd("B"), "C", true, 2, 3)
  {
    hide Executes;
    var queued := QueuedIsReached();
    assert Inv(Queued()) by { InitInv(3); RunsKeepInv(Init(3), queued, Queued()); }
    var free := AnswerEndsTheCommand(Queued(), 0, true);
    var ends := [FinalResponse(true, Some(0)), TakeAnswer(0), Check(0), Finish(0), Release(0), Return(0)];
    Joined(Init(3), queued, Queued(), ends, free);
    assert free.pcs[1] == TurnCalled(Cmd("B"), 0, 2) && free.strbuf == "C" && free.sent == Queued().sent;
    var taken := Next(free, TakeTurn(1));
    last := Next(taken, Request(1, true, true));
    One(taken, Request(1, true, true));
    Then(free, TakeTurn(1), [Request(1, true, true)], last);
    Joined(Init(3), queued + ends, free, [TakeTurn(1)] + [Request(1, true, true)], last);
    actions := queued + ends + ([TakeTurn(1)] + [Request(1, true, true)]);
  }

  /** And with a second channel a thread need not have waited: while it is about to write, a thread of that
      channel formats its command. */
  lemma MixUpWithoutWaiting() returns (actions: seq<Action>, last: State)
    ensures Executes(Init(1), actions, last)
    ensures last.sent == [Sent(0, Cmd("A"), "B", false, 1, 2)]
  {
    var s := Init(1);
    var locked := At(s, 0, Requesting(Cmd("A"), 0, false, 1));
    var s2 := locked.(commandMutex := Some(0), strbuf := "A", formats := [Put(0, "A")]);
    FirstLock(s, "A", s2);
    var s3 := Next(s2, Elsewhere(Put(1, "B")));
    last := Next(s3, Request(0, true, true));
    hide Next, Executes;
    One(s3, Request(0, true, true));
    Then(s2, Elsewhere(Put(1, "B")), [Request(0, true, true)], last);
    Joined(s, [Call(0, Cmd("A")), Lock(0)], s2, [Elsewhere(Put(1, "B"))] + [Request(0, true, true)], last);
    actions := [Call(0, Cmd("A")), Lock(0)] + ([Elsewhere(Put(1, "B"))] + [Request(0, true, true)]);
  }
}
