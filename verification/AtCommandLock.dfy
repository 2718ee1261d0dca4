/** One AT command at a time: the locking of `at_send_command_full` and `at_handshake`
    (mbm/mbm-ril/atchannel.c:946-1055, 1283-1316) as a transition system over any number of command threads
    on one open channel.

    A step ends where another thread may get in: at a lock, at a wait on one of the two condition variables,
    and around the unlocking of requestmutex. Wake-ups may be spurious, and waits with a timeout may time
    out at any moment. What the reader does to the response besides completing it is in AtRouting.

    The mutexes belong to the channel, but the static buffer to the program: threads that work on another
    channel may put their commands together in it at any moment. They have numbers of their own. */
module AtCommandLock {
  import opened Basics

  type Tid = nat

  const HANDSHAKE_RETRY_COUNT := 8
  const BUFFSIZE := 512

  /** What `vsnprintf` makes of a command in the static buffer: its end is cut off if it does not fit. */
  function Formatted(text: string): string {
    if |text| < BUFFSIZE then text else text[..BUFFSIZE - 1]
  }

  /** What a thread wants done; `text` is the command with its arguments in place. */
  datatype Job = Send(text: string, formatted: bool, timed: bool) | Handshake
  {
    function Text(): string {
      if Handshake? then "ATE0V1" else if formatted then Formatted(text) else text
    }

    predicate Timed() {
      Send? ==> timed
    }

    /** Commands with arguments are put together in one static buffer. */
    predicate Buffered() {
      Send? && formatted
    }
  }

  datatype Result = Success | Failure | TimedOut | ChannelClosed | CommandPending

  datatype Pc =
    | Idle
    | Entering(job: Job)
    | Requesting(job: Job, tries: nat, waited: bool, own: nat)  // own: commands formatted up to and with its own
    | AwaitingTurn(job: Job, tries: nat, own: nat)
    | TurnCalled(job: Job, tries: nat, own: nat)
    | Checking(job: Job, tries: nat)
    | AwaitingAnswer(job: Job, tries: nat)
    | AnswerCalled(job: Job, tries: nat, timedOut: bool)
    | Finishing(job: Job, tries: nat, result: Result)
    | Releasing(job: Job, tries: nat, result: Result)
    | Returning(job: Job, tries: nat, result: Result)
  {
    predicate HoldsCommand() {
      Requesting? || Checking? || Finishing? || Releasing? || Returning?
    }

    predicate HoldsRequest() {
      Checking? || AwaitingAnswer? || AnswerCalled? || Finishing? || Releasing?
    }

    /** Between the creation of its response and its end. */
    predicate Pending() {
      Checking? || AwaitingAnswer? || AnswerCalled?
    }
  }

  /** The response object: whose command it is for, and whether it is complete and a success. */
  datatype Response = Response(owner: Tid, answer: Option<bool>)

  /** A command put together in the static buffer. */
  datatype Put = Put(thread: Tid, text: string)

  /** A command line as written to the modem; `formats` is how many commands had been formatted by then, and
      `own` how many when the thread had formatted its own. */
  datatype Sent = Sent(thread: Tid, job: Job, text: string, waited: bool, own: nat, formats: nat)

  /** A response taken by a thread. */
  datatype Taken = Taken(taker: Tid, response: Response)

  datatype State = State(
    pcs: seq<Pc>,
    commandMutex: Option<Tid>,
    requestMutex: Option<Tid>,
    response: Option<Response>,
    readerClosed: bool,
    strbuf: string,
    formats: seq<Put>,
    sent: seq<Sent>,
    taken: seq<Taken>)

  datatype Action =
    | Call(t: Tid, job: Job)
    | Lock(t: Tid)
    | Request(t: Tid, created: bool, written: bool)
    | SpuriousTurn(t: Tid)
    | TakeTurn(t: Tid)
    | Check(t: Tid)
    | WakeFromAnswer(t: Tid, timedOut: bool)
    | TakeAnswer(t: Tid)
    | Finish(t: Tid)
    | Release(t: Tid)
    | Return(t: Tid)
    | FinalResponse(success: bool, woken: Option<Tid>)
    | Close(woken: Option<Tid>)
    | Elsewhere(put: Put)  // a command for another channel is put together

  // ----- steps

  /** Whom a signal on commandcond may wake: one of those who wait for it, if there are any. */
  predicate MayWake(s: State, woken: Option<Tid>) {
    match woken
    case Some(t) => t < |s.pcs| && s.pcs[t].AwaitingAnswer?
    case None => forall t | 0 <= t < |s.pcs| :: !s.pcs[t].AwaitingAnswer?
  }

  predicate Enabled(s: State, a: Action) {
    match a
    case FinalResponse(_, woken) => s.commandMutex == None && s.response.Some? && MayWake(s, woken)
    case Close(woken) => s.commandMutex == None && MayWake(s, woken)
    case Call(t, _) => t < |s.pcs| && s.pcs[t].Idle?
    case Lock(t) => t < |s.pcs| && s.pcs[t].Entering? && s.commandMutex == None
    case Request(t, _, _) => t < |s.pcs| && s.pcs[t].Requesting?
    case SpuriousTurn(t) => t < |s.pcs| && s.pcs[t].AwaitingTurn?
    case TakeTurn(t) => t < |s.pcs| && s.pcs[t].TurnCalled? && s.commandMutex == None
    case Check(t) => t < |s.pcs| && s.pcs[t].Checking?
    case WakeFromAnswer(t, timedOut) => t < |s.pcs| && s.pcs[t].AwaitingAnswer? && (timedOut ==> s.pcs[t].job.Timed())
    case TakeAnswer(t) => t < |s.pcs| && s.pcs[t].AnswerCalled? && s.commandMutex == None
    case Finish(t) => t < |s.pcs| && s.pcs[t].Finishing?
    case Release(t) => t < |s.pcs| && s.pcs[t].Releasing?
    case Return(t) => t < |s.pcs| && s.pcs[t].Returning?
    case Elsewhere(put) => put.thread >= |s.pcs| && |put.text| < BUFFSIZE
  }

  function At(s: State, t: Tid, pc: Pc): State
    requires t < |s.pcs|
  {
    s.(pcs := s.pcs[t := pc])
  }

  /** Into at_send_command_full or at_handshake: commandmutex, and the command put together. */
  function LockStep(s: State, t: Tid): State
    requires Enabled(s, Lock(t))
  {
    var job := s.pcs[t].job;
    var q := s.(commandMutex := Some(t));
    if !job.Buffered() then At(q, t, Requesting(job, 0, false, |s.formats|))
    else
      var f := q.(strbuf := job.Text(), formats := s.formats + [Put(t, job.Text())]);
      At(f, t, if job.Text() == "" then Returning(job, 0, Failure) else Requesting(job, 0, false, |f.formats|))
  }

  /** From the attempt to get requestmutex to the wait for it, or to the command being written. */
  function RequestStep(s: State, t: Tid, created: bool, written: bool): State
    requires Enabled(s, Request(t, created, written))
  {
    var pc := s.pcs[t];
    if s.requestMutex.Some? then At(s, t, AwaitingTurn(pc.job, pc.tries, pc.own)).(commandMutex := None)
    else
      var q := s.(requestMutex := Some(t));
      if q.response.Some? then At(q, t, Finishing(pc.job, pc.tries, CommandPending))
      else if !created then At(q, t, Finishing(pc.job, pc.tries, Failure))
      else
        var r := q.(response := Some(Response(t, None)));
        if !written then At(r, t, Finishing(pc.job, pc.tries, Failure))
        else
          var text := if pc.job.Buffered() then s.strbuf else pc.job.Text();
          At(r, t, Checking(pc.job, pc.tries)).(
            sent := s.sent + [Sent(t, pc.job, text, pc.waited, pc.own, |s.formats|)])
  }

  /** The loop around the wait for the final response. */
  function CheckStep(s: State, t: Tid): State
    requires Enabled(s, Check(t)) && s.response.Some?
  {
    var pc := s.pcs[t];
    if s.response.value.answer == None && !s.readerClosed then
      At(s, t, AwaitingAnswer(pc.job, pc.tries)).(commandMutex := None)
    else
      var result :=
        if s.readerClosed then ChannelClosed else if s.response.value.answer == Some(true) then Success else Failure;
      At(s, t, Finishing(pc.job, pc.tries, result)).(response := None, taken := s.taken + [Taken(t, s.response.value)])
  }

  /** All who wait on requestcond become runnable. */
  function WakeAll(pcs: seq<Pc>): seq<Pc> {
    seq(|pcs|, i requires 0 <= i < |pcs| =>
      if pcs[i].AwaitingTurn? then TurnCalled(pcs[i].job, pcs[i].tries, pcs[i].own) else pcs[i])
  }

  function ReturnStep(s: State, t: Tid): State
    requires Enabled(s, Return(t))
  {
    var pc := s.pcs[t];
    if pc.job.Handshake? && pc.result != Success && pc.tries + 1 < HANDSHAKE_RETRY_COUNT then
      At(s, t, Requesting(pc.job, pc.tries + 1, false, |s.formats|))
    else At(s, t, Idle).(commandMutex := None)
  }

  function Signal(s: State, woken: Option<Tid>): State
    requires MayWake(s, woken)
  {
    match woken
    case None => s
    case Some(t) => At(s, t, AnswerCalled(s.pcs[t].job, s.pcs[t].tries, false))
  }

  function Next(s: State, a: Action): State
    requires Enabled(s, a) && (a.Check? ==> s.response.Some?)
  {
    match a
    case Call(t, job) => At(s, t, Entering(job))
    case Lock(t) => LockStep(s, t)
    case Request(t, created, written) => RequestStep(s, t, created, written)
    case SpuriousTurn(t) => At(s, t, TurnCalled(s.pcs[t].job, s.pcs[t].tries, s.pcs[t].own))
    case TakeTurn(t) =>
      At(s, t, Requesting(s.pcs[t].job, s.pcs[t].tries, true, s.pcs[t].own)).(commandMutex := Some(t))
    case Check(t) => CheckStep(s, t)
    case WakeFromAnswer(t, timedOut) => At(s, t, AnswerCalled(s.pcs[t].job, s.pcs[t].tries, timedOut))
    case TakeAnswer(t) =>
      var pc := s.pcs[t];
      At(s, t, if pc.timedOut then Finishing(pc.job, pc.tries, TimedOut)
          else Checking(pc.job, pc.tries)).(commandMutex := Some(t))
    case Finish(t) =>
      var pc := s.pcs[t];
      s.(pcs := WakeAll(s.pcs[t := Releasing(pc.job, pc.tries, pc.result)]), response := None)
    case Release(t) =>
      At(s, t, Returning(s.pcs[t].job, s.pcs[t].tries, s.pcs[t].result)).(requestMutex := None)
    case Return(t) => ReturnStep(s, t)
    case FinalResponse(success, woken) =>
      Signal(s.(response := Some(s.response.value.(answer := Some(success)))), woken)
    case Close(woken) => Signal(s.(readerClosed := true), woken)
    case Elsewhere(put) => s.(strbuf := put.text, formats := s.formats + [put])
  }

  function Init(threads: nat): State {
    State(seq(threads, _ => Idle), None, None, None, false, "", [], [], [])
  }

  // ----- the invariant

  /** What holds of every thread: where it is decides which mutexes it holds; nobody sleeps without a reason;
      and as long as it has not waited, no other thread of the channel has used the static buffer. */
  predicate ThreadInv(s: State, t: Tid)
    requires t < |s.pcs|
  {
    var pc := s.pcs[t];
    && (pc.HoldsCommand() <==> s.commandMutex == Some(t))
    && (pc.HoldsRequest() <==> s.requestMutex == Some(t))
    && (pc.Pending() ==> s.response.Some?)
    && (pc.Releasing? ==> s.response == None)
    && (pc.Finishing? || pc.Releasing? || pc.Returning? ==> pc.result != CommandPending)
    // whoever waits for a turn has somebody before them who will still broadcast
    && (pc.AwaitingTurn? ==> s.requestMutex.Some? && !Broadcasted(s))
    // whoever waits for an answer does not have one
    && (pc.AwaitingAnswer? ==> !s.readerClosed && s.response.Some? && s.response.value.answer == None)
    && (pc.AnswerCalled? && pc.timedOut ==> pc.job.Timed())
    && Tries(pc) < HANDSHAKE_RETRY_COUNT
    && (BeforeTurn(pc) && pc.job.Buffered() ==> IsOwn(s.formats, pc.own, t, pc.job.Text()))
    && (pc.Requesting? && !pc.waited ==> OnlyElsewhere(s.formats, pc.own, |s.pcs|))
  }

  /** Past the formatting of its command, and not yet past its writing. */
  predicate BeforeTurn(pc: Pc) {
    pc.Requesting? || pc.AwaitingTurn? || pc.TurnCalled?
  }

  /** The own-th command that was formatted was put together by thread t, and none of the later ones was. */
  predicate IsOwn(formats: seq<Put>, own: nat, t: Tid, text: string) {
    && 0 < own <= |formats| && formats[own - 1] == Put(t, text)
    && forall j | own <= j < |formats| :: formats[j].thread != t
  }

  /** The commands formatted after the own-th are for other channels. */
  predicate OnlyElsewhere(formats: seq<Put>, own: nat, threads: nat) {
    forall j | own <= j < |formats| :: formats[j].thread >= threads
  }

  lemma ElsewhereGrows(formats: seq<Put>, own: nat, threads: nat, put: Put)
    requires OnlyElsewhere(formats, own, threads) && put.thread >= threads
    ensures OnlyElsewhere(formats + [put], own, threads)
  {
  }

  lemma NothingLater(formats: seq<Put>, threads: nat)
    ensures OnlyElsewhere(formats, |formats|, threads)
  {
  }

  lemma OwnGrows(formats: seq<Put>, own: nat, t: Tid, text: string, put: Put)
    requires IsOwn(formats, own, t, text) && put.thread != t
    ensures IsOwn(formats + [put], own, t, text)
  {
  }

  lemma OwnIsLast(formats: seq<Put>, put: Put)
    ensures IsOwn(formats + [put], |formats| + 1, put.thread, put.text)
  {
  }

  /** The holder of requestmutex has woken the others and is about to let go. */
  predicate Broadcasted(s: State) {
    s.requestMutex.Some? && s.requestMutex.value < |s.pcs| && s.pcs[s.requestMutex.value].Releasing?
  }

  predicate Started(pc: Pc) {
    !pc.Idle? && !pc.Entering?
  }

  function Tries(pc: Pc): nat {
    if Started(pc) then pc.tries else 0
  }

  /** A command from the static buffer goes out as what was formatted last; since its own command none was
      formatted by its thread, and only such for other channels unless it waited. */
  predicate SentWell(e: Sent, formats: seq<Put>, threads: nat) {
    && (!e.job.Buffered() ==> e.text == e.job.Text())
    && (e.job.Buffered() ==>
          && 0 < e.formats <= |formats| && e.text == formats[e.formats - 1].text
          && IsOwn(formats[..e.formats], e.own, e.thread, e.job.Text())
          && (!e.waited ==> OnlyElsewhere(formats[..e.formats], e.own, threads)))
  }

  lemma SentStays(e: Sent, formats: seq<Put>, threads: nat, put: Put)
    requires SentWell(e, formats, threads)
    ensures SentWell(e, formats + [put], threads)
  {
    hide IsOwn, OnlyElsewhere;
    if e.job.Buffered() {
      assert (formats + [put])[..e.formats] == formats[..e.formats];
    }
  }

  /** The response is that of the thread that holds requestmutex, and was taken by nobody else; the static
      buffer holds what was formatted last. */
  predicate SharedInv(s: State) {
    && (s.commandMutex.Some? ==> s.commandMutex.value < |s.pcs|)
    && (s.requestMutex.Some? ==> s.requestMutex.value < |s.pcs|)
    && (s.response.Some? ==> s.requestMutex == Some(s.response.value.owner))
    && (forall k | 0 <= k < |s.taken| :: s.taken[k].taker == s.taken[k].response.owner)
    && (s.formats != [] ==> s.strbuf == s.formats[|s.formats| - 1].text)
    && (forall k | 0 <= k < |s.sent| :: SentWell(s.sent[k], s.formats, |s.pcs|))
  }

  predicate Inv(s: State) {
    SharedInv(s) && forall t | 0 <= t < |s.pcs| :: ThreadInv(s, t)
  }

  lemma InitInv(threads: nat)
    ensures Inv(Init(threads))
  {
  }

  lemma CallKeeps(s: State, t: Tid, job: Job)
    requires Inv(s) && Enabled(s, Call(t, job))
    ensures Inv(Next(s, Call(t, job)))
  {
    hide SentWell, IsOwn, OnlyElsewhere;
    assert ThreadInv(s, t);
    forall u | 0 <= u < |s.pcs| ensures ThreadInv(Next(s, Call(t, job)), u) {
      assert ThreadInv(s, u);
    }
  }

  lemma LockKeepsShared(s: State, t: Tid)
    requires Inv(s) && Enabled(s, Lock(t))
    ensures SharedInv(Next(s, Lock(t)))
  {
    var job, q := s.pcs[t].job, Next(s, Lock(t));
    if job.Buffered() {
      forall k | 0 <= k < |s.sent| ensures SentWell(s.sent[k], q.formats, |q.pcs|) {
        SentStays(s.sent[k], s.formats, |s.pcs|, Put(t, job.Text()));
      }
    }
    hide ThreadInv, SentWell, Formatted;
  }

  lemma LockKeeps(s: State, t: Tid)
    requires Inv(s) && Enabled(s, Lock(t))
    ensures Inv(Next(s, Lock(t)))
  {
    LockKeepsShared(s, t);
    hide SharedInv;
    forall u | 0 <= u < |s.pcs| ensures ThreadInv(Next(s, Lock(t)), u) {
      LockKeepsThread(s, t, u);
    }
  }

  lemma LockKeepsThread(s: State, t: Tid, u: Tid)
    requires Inv(s) && Enabled(s, Lock(t)) && u < |s.pcs|
    ensures ThreadInv(LockStep(s, t), u)
  {
    assert ThreadInv(s, t) && ThreadInv(s, u);
    hide SharedInv, Inv, IsOwn, OnlyElsewhere;
    var q := LockStep(s, t);
    LockStepHas(s, t);
    NothingLater(q.formats, |q.pcs|);
    hide LockStep;
    assert Broadcasted(q) == Broadcasted(s);
    if u != t {
      assert q.pcs[u] == s.pcs[u];
      if q.formats != s.formats && BeforeTurn(s.pcs[u]) && s.pcs[u].job.Buffered() {
        OwnGrows(s.formats, s.pcs[u].own, u, s.pcs[u].job.Text(), Put(t, s.pcs[t].job.Text()));
      }
    }
  }

  lemma LockStepHas(s: State, t: Tid)
    requires Enabled(s, Lock(t))
    ensures var q, job := LockStep(s, t), s.pcs[t].job;
            && q.requestMutex == s.requestMutex && q.response == s.response && q.readerClosed == s.readerClosed
            && q.commandMutex == Some(t) && |q.pcs| == |s.pcs|
            && (forall u | 0 <= u < |s.pcs| && u != t :: q.pcs[u] == s.pcs[u])
            && (q.pcs[t] == Requesting(job, 0, false, |q.formats|) || q.pcs[t] == Returning(job, 0, Failure))
            && q.formats == (if job.Buffered() then s.formats + [Put(t, job.Text())] else s.formats)
            && (job.Buffered() ==> IsOwn(q.formats, |q.formats|, t, job.Text()))
  {
    OwnIsLast(s.formats, Put(t, s.pcs[t].job.Text()));
    hide IsOwn, Formatted;
  }

  /** The text that a thread is about to write. */
  lemma WritesWell(s: State, t: Tid)
    requires Inv(s) && t < |s.pcs| && s.pcs[t].Requesting?
    ensures var pc := s.pcs[t];
            var text := if pc.job.Buffered() then s.strbuf else pc.job.Text();
            SentWell(Sent(t, pc.job, text, pc.waited, pc.own, |s.formats|), s.formats, |s.pcs|)
  {
    assert ThreadInv(s, t);
    assert s.formats[..|s.formats|] == s.formats;
    hide Formatted;
  }

  lemma RequestKeepsShared(s: State, a: Action)
    requires Inv(s) && Enabled(s, a) && a.Request?
    ensures SharedInv(Next(s, a))
  {
    assert ThreadInv(s, a.t);
    WritesWell(s, a.t);
    hide ThreadInv, SentWell, Formatted;
  }

  lemma RequestKeeps(s: State, a: Action)
    requires Inv(s) && Enabled(s, a) && a.Request?
    ensures Inv(Next(s, a))
  {
    RequestKeepsShared(s, a);
    assert ThreadInv(s, a.t);
    if s.requestMutex.Some? {
      assert ThreadInv(s, s.requestMutex.value);
    }
    assert s.response.Some? ==> s.requestMutex == Some(s.response.value.owner);
    hide SharedInv, IsOwn, OnlyElsewhere, Formatted;
    forall u | 0 <= u < |s.pcs| ensures ThreadInv(Next(s, a), u) {
      assert ThreadInv(s, u);
    }
  }

  lemma TurnKeeps(s: State, a: Action)
    requires Inv(s) && Enabled(s, a) && (a.SpuriousTurn? || a.TakeTurn?)
    ensures Inv(Next(s, a))
  {
    hide SentWell, IsOwn, OnlyElsewhere;
    assert ThreadInv(s, a.t);
    forall u | 0 <= u < |s.pcs| ensures ThreadInv(Next(s, a), u) {
      assert ThreadInv(s, u);
    }
  }

  lemma AnswerKeeps(s: State, a: Action)
    requires Inv(s) && Enabled(s, a) && (a.WakeFromAnswer? || a.TakeAnswer?)
    ensures Inv(Next(s, a))
  {
    hide SentWell, IsOwn, OnlyElsewhere;
    assert ThreadInv(s, a.t);
    forall u | 0 <= u < |s.pcs| ensures ThreadInv(Next(s, a), u) {
      assert ThreadInv(s, u);
    }
  }

  lemma ReleaseKeeps(s: State, a: Action)
    requires Inv(s) && Enabled(s, a) && (a.Release?)
    ensures Inv(Next(s, a))
  {
    hide SentWell, IsOwn, OnlyElsewhere;
    assert ThreadInv(s, a.t);
    forall u | 0 <= u < |s.pcs| ensures ThreadInv(Next(s, a), u) {
      assert ThreadInv(s, u);
    }
  }

  lemma CheckKeeps(s: State, t: Tid)
    requires Inv(s) && Enabled(s, Check(t))
    ensures s.response.Some? && Inv(Next(s, Check(t)))
  {
    hide SentWell, IsOwn, OnlyElsewhere;
    assert ThreadInv(s, t);
    forall u | 0 <= u < |s.pcs| ensures ThreadInv(Next(s, Check(t)), u) {
      assert ThreadInv(s, u);
    }
  }

  lemma FinishKeeps(s: State, t: Tid)
    requires Inv(s) && Enabled(s, Finish(t))
    ensures Inv(Next(s, Finish(t)))
  {
    hide SentWell, IsOwn, OnlyElsewhere;
    assert ThreadInv(s, t);
    forall u | 0 <= u < |s.pcs| ensures ThreadInv(Next(s, Finish(t)), u) {
      assert ThreadInv(s, u);
    }
  }

  lemma RetryKeeps(s: State, t: Tid, pc: Pc)
    requires Inv(s) && Enabled(s, Return(t)) && s.pcs[t].tries + 1 < HANDSHAKE_RETRY_COUNT && s.pcs[t].job.Handshake?
    requires pc == Requesting(s.pcs[t].job, s.pcs[t].tries + 1, false, |s.formats|)
    ensures Inv(At(s, t, pc))
  {
    hide SentWell, IsOwn, OnlyElsewhere;
    assert ThreadInv(s, t);
    NothingLater(s.formats, |s.pcs|);
    forall u | 0 <= u < |s.pcs| ensures ThreadInv(At(s, t, pc), u) {
      assert ThreadInv(s, u);
    }
  }

  lemma LeaveKeeps(s: State, t: Tid)
    requires Inv(s) && Enabled(s, Return(t))
    ensures Inv(At(s, t, Idle).(commandMutex := None))
  {
    hide SentWell, IsOwn, OnlyElsewhere;
    assert ThreadInv(s, t);
    var q := At(s, t, Idle).(commandMutex := None);
    forall u | 0 <= u < |s.pcs| ensures ThreadInv(q, u) {
      assert ThreadInv(s, u);
    }
  }

  lemma ReturnKeeps(s: State, t: Tid)
    requires Inv(s) && Enabled(s, Return(t))
    ensures Inv(Next(s, Return(t)))
  {
    hide Inv, At;
    var pc := s.pcs[t];
    if pc.job.Handshake? && pc.result != Success && pc.tries + 1 < HANDSHAKE_RETRY_COUNT {
      RetryKeeps(s, t, Requesting(pc.job, pc.tries + 1, false, |s.formats|));
    } else {
      LeaveKeeps(s, t);
    }
  }

  lemma SignalKeeps(s: State, a: Action)
    requires Inv(s) && Enabled(s, a) && (a.FinalResponse? || a.Close?)
    ensures Inv(Next(s, a))
  {
    hide SentWell, IsOwn, OnlyElsewhere;
    if a.woken.Some? {
      assert ThreadInv(s, a.woken.value);
    }
    forall u | 0 <= u < |s.pcs| ensures ThreadInv(Next(s, a), u) {
      assert ThreadInv(s, u);
    }
  }

  lemma ElsewhereKeeps(s: State, put: Put)
    requires Inv(s) && Enabled(s, Elsewhere(put))
    ensures Inv(Next(s, Elsewhere(put)))
  {
    var q := Next(s, Elsewhere(put));
    hide SentWell, IsOwn, OnlyElsewhere;
    forall k | 0 <= k < |s.sent| ensures SentWell(s.sent[k], q.formats, |q.pcs|) {
      SentStays(s.sent[k], s.formats, |s.pcs|, put);
    }
    forall u | 0 <= u < |s.pcs| ensures ThreadInv(q, u) {
      assert ThreadInv(s, u);
      var pc := s.pcs[u];
      if BeforeTurn(pc) && pc.job.Buffered() {
        OwnGrows(s.formats, pc.own, u, pc.job.Text(), put);
      }
      if pc.Requesting? && !pc.waited {
        ElsewhereGrows(s.formats, pc.own, |s.pcs|, put);
      }
    }
  }

  lemma NextKeepsInv(s: State, a: Action)
    requires Inv(s) && Enabled(s, a)
    ensures a.Check? ==> s.response.Some?
    ensures Inv(Next(s, a))
  {
    hide Inv, Next, Enabled;
    match a
    case Call(t, job) => CallKeeps(s, t, job);
    case Lock(t) => LockKeeps(s, t);
    case Request(_, _, _) => RequestKeeps(s, a);
    case Check(t) => CheckKeeps(s, t);
    case Finish(t) => FinishKeeps(s, t);
    case Return(t) => ReturnKeeps(s, t);
    case FinalResponse(_, _) => SignalKeeps(s, a);
    case Close(_) => SignalKeeps(s, a);
    case Elsewhere(put) => ElsewhereKeeps(s, put);
    case WakeFromAnswer(_, _) => AnswerKeeps(s, a);
    case TakeAnswer(_) => AnswerKeeps(s, a);
    case Release(_) => ReleaseKeeps(s, a);
    case _ => TurnKeeps(s, a);
  }
}
