/** Whole configuration files: for every file of the grammar, how the parser ends on its tokens. */
module ConfFiles {
  import opened Basics
  import opened ConfTables
  import opened SensorExpr
  import opened ConfParse
  import opened ConfGrammar
  import opened ConfComplete

  /** The stack between two lines: the start state and `input`. */
  function InputStack(): Stack {
    Push(Bottom, 1, Nothing)
  }

  /** The most entries a statement takes on top of that. */
  function PeakStmt(s: Stmt): nat {
    match s
    case SetStmt(_, value) => 2 + Peak(value)
    case ComputeStmt(_, f, t) => if Peak(f) < 2 + Peak(t) then 4 + Peak(t) else 2 + Peak(f)
    case _ => 3
  }

  /** How parsing goes on after a statement read with this configuration: `Accepted` stands for going on
      with a new one. */
  function StmtVerdict(c: Config, s: Stmt): Outcome {
    if 2 + PeakStmt(s) >= YYMAXDEPTH then Exhausted
    else
      match Exec(c, s)
      case None => SyntaxError
      case Some(next) => Accepted(next)
  }

  /** How parsing a file ends: with the configuration its statements build, unless before that the stack
      overflows or a statement precedes the first chip section. */
  function Verdict(ss: seq<Stmt>): Outcome {
    if ss == [] then Accepted(Config([], []))
    else
      match Verdict(ss[..|ss| - 1])
      case Accepted(c) => StmtVerdict(c, ss[|ss| - 1])
      case o => o
  }

  // ----- table facts, by statement

  lemma LineActions(token: int)
    ensures Decide(1, 12) == Shift(4) && Decide(1, 13) == Shift(5) && Decide(1, 14) == Shift(6)
    ensures Decide(1, 15) == Shift(7) && Decide(1, 16) == Shift(8) && Decide(1, 17) == Shift(9)
    ensures Decide(10, token) == Reduce(3) && GoTo(0, 25) == 1 && GoTo(1, 26) == 10
    ensures Decide(1, 0) == Shift(2) && Decide(0, token) == Reduce(2)
  {
  }

  /** The state of a statement, before its end of line. */
  function StmtState(s: Stmt): int {
    match s
    case BusStmt(_, _) => 11
    case LabelStmt(_, _) => 12
    case SetStmt(_, _) => 13
    case ComputeStmt(_, _, _) => 14
    case IgnoreStmt(_) => 15
    case ChipStmt(_) => 16
  }

  function EolRule(state: int): int {
    match state case 28 => 4 case 29 => 5 case 30 => 6 case 31 => 8 case 32 => 9 case _ => 7
  }

  lemma EolActions(state: int, token: int)
    requires 11 <= state <= 16
    ensures Decide(state, 11) == Shift(state + 17) && Decide(state + 17, token) == Reduce(EolRule(state + 17))
    ensures YyR2(EolRule(state + 17)) == 2 && YyR1(EolRule(state + 17)) == 26
  {
    match state
    case 11 => case 12 => case 13 => case 14 => case 15 => case _ =>
  }

  /** A reduction that may change the configuration. */
  lemma ReduceEffect(st: Stack, len: nat, rest: seq<Token>, c: Config, rule: int, below: Stack)
    requires st.Size() < YYMAXDEPTH && st.State() != YYFINAL
    requires Decide(st.State(), NextNumber(rest)) == Reduce(rule) && YyR2(rule) == len && st.Pop(len) == below
    ensures Step(Machine(st, rest, c))
         == match Effect(st, rule, c)
            case None => SyntaxError
            case Some(c2) =>
              Running(Machine(Push(below, GoTo(below.State(), YyR1(rule)), Reduced(st, rule)), rest, c2))
  {
    hide Decide, Stack.Size, Stack.State, Stack.Pop, NextNumber, GoTo, YyR1, Reduced, Effect;
  }

  /** From a finished statement through its end of line to the next line. */
  lemma EndLine(s: Stmt, rest: seq<Token>, c: Config)
    ensures Steps(Machine(Push(InputStack(), StmtState(s), Nothing), [TEol] + rest, c), 3)
         == Running(Machine(InputStack(), rest, c))
  {
    var q := StmtState(s);
    var st := Push(InputStack(), q, Nothing);
    var m0 := Machine(st, [TEol] + rest, c);
    var m1 := Machine(Push(st, q + 17, Nothing), rest, c);
    var m2 := Machine(Push(InputStack(), 10, Nothing), rest, c);
    EolShift(s, rest, c);
    EolReduce(s, rest, c);
    LineReduce(rest, c);
    hide Step, InputStack;
    StepOnce(m2);
    StepThen(m1, m2, 1);
    StepThen(m0, m1, 2);
  }

  lemma EolShift(s: Stmt, rest: seq<Token>, c: Config)
    ensures var st := Push(InputStack(), StmtState(s), Nothing);
            Step(Machine(st, [TEol] + rest, c)) == Running(Machine(Push(st, StmtState(s) + 17, Nothing), rest, c))
  {
    EolActions(StmtState(s), 0);
    var st := Push(InputStack(), StmtState(s), Nothing);
    assert st.Size() == 3;
    hide Decide, Step;
    ShiftStep(st, TEol, rest, c, StmtState(s) + 17);
  }

  lemma EolReduce(s: Stmt, rest: seq<Token>, c: Config)
    ensures var st := Push(InputStack(), StmtState(s), Nothing);
            Step(Machine(Push(st, StmtState(s) + 17, Nothing), rest, c))
            == Running(Machine(Push(InputStack(), 10, Nothing), rest, c))
  {
    var q := StmtState(s);
    EolActions(q, NextNumber(rest));
    LineActions(0);
    var st := Push(Push(InputStack(), q, Nothing), q + 17, Nothing);
    TopTwo(InputStack(), q, Nothing, q + 17, Nothing);
    assert st.Size() == 4 by { assert InputStack().Size() == 2; }
    hide Decide, Step, GoTo, NextNumber, YyR1, YyR2;
    ReduceStep(st, 2, rest, c, EolRule(q + 17), InputStack());
  }

  lemma LineReduce(rest: seq<Token>, c: Config)
    ensures Step(Machine(Push(InputStack(), 10, Nothing), rest, c)) == Running(Machine(InputStack(), rest, c))
  {
    LineActions(NextNumber(rest));
    var st := Push(InputStack(), 10, Nothing);
    TopTwo(Bottom, 1, Nothing, 10, Nothing);
    assert st.Size() == 3;
    hide Decide, Step, GoTo, NextNumber;
    ReduceStep(st, 2, rest, c, 3, Bottom);
  }

  // ----- statement by statement

  lemma NameActions(token: int)
    ensures Decide(4, 19) == Shift(18) && Decide(18, token) == Reduce(30) && GoTo(4, 35) == 19
    ensures Decide(19, 19) == Shift(34) && Decide(34, token) == Reduce(31) && GoTo(19, 36) == 35
    ensures Decide(35, token) == Reduce(11) && GoTo(1, 27) == 11
    ensures Decide(21, 19) == Shift(36) && Decide(36, token) == Reduce(33) && GoTo(21, 38) == 37
    ensures Decide(37, token) == Reduce(12) && GoTo(1, 28) == 12
    ensures Decide(27, token) == Reduce(15) && GoTo(1, 31) == 15
  {
  }

  /** Reading one name in a state that expects it: shift it, and reduce it to the nonterminal it stands
      for there. */
  lemma ReadName(st: Stack, name: string, rest: seq<Token>, c: Config, mid: int, rule: int, symbol: int, next: int)
    requires st.Size() + 1 < YYMAXDEPTH && st.State() != YYFINAL && mid != YYFINAL
    requires Decide(st.State(), 19) == Shift(mid) && Decide(mid, NextNumber(rest)) == Reduce(rule)
    requires rule in {30, 31, 32, 33, 34} && YyR1(rule) == symbol && GoTo(st.State(), symbol) == next
    ensures Steps(Machine(st, [TName(name)] + rest, c), 2) == Running(Machine(Push(st, next, Text(name)), rest, c))
  {
    hide *;
    var s1 := Push(st, mid, Text(name));
    NameTop(st, mid, name);
    NameRule(s1, rule, c);
    ShiftStep(st, TName(name), rest, c, mid);
    ReduceStep(s1, 1, rest, c, rule, st);
    var m0, m1 := Machine(st, [TName(name)] + rest, c), Machine(s1, rest, c);
    StepOnce(m1);
    StepThen(m0, m1, 1);
  }

  lemma NameTop(st: Stack, mid: int, name: string)
    ensures var s := Push(st, mid, Text(name));
            s.State() == mid && s.Pop(1) == st && s.Size() == st.Size() + 1 && s.Peek(0) == Text(name)
    ensures Number(TName(name)) == 19 && TokenValue(TName(name)) == Text(name)
  {
  }

  lemma NameRule(s: Stack, rule: int, c: Config)
    requires rule in {30, 31, 32, 33, 34}
    ensures YyR2(rule) == 1 && Reduced(s, rule) == s.Peek(0) && Effect(s, rule, c) == Some(c)
  {
    hide YyR1, Stack.Peek;
  }

  function BusName(bus: string): Stack {
    Push(Push(InputStack(), 4, Nothing), 19, Text(bus))
  }

  lemma BusTop(bus: string, adapter: string, c: Config)
    ensures var st := Push(BusName(bus), 35, Text(adapter));
            && st.State() == 35 && st.Size() == 5 && st.Pop(3) == InputStack()
            && Effect(st, 11, c) == Some(AddBus(c, bus, adapter)) && Reduced(st, 11) == Nothing && YyR2(11) == 3
            && YyR1(11) == 27 && InputStack().State() == 1
  {
    TopThree(InputStack(), 4, Nothing, 19, Text(bus), 35, Text(adapter));
    assert InputStack().Size() == 2;
    assert YyR2(11) == 3 && YyR1(11) == 27;
    hide YyR1, YyR2, Stack.Size, Stack.Pop, Stack.Peek, AddBus;
  }

  lemma BusReduce(bus: string, adapter: string, t: seq<Token>, c: Config)
    ensures Step(Machine(Push(BusName(bus), 35, Text(adapter)), t, c))
         == Running(Machine(Push(InputStack(), 11, Nothing), t, AddBus(c, bus, adapter)))
  {
    hide *;
    BusTop(bus, adapter, c);
    Limits(t);
    NameActions(NextNumber(t));
    ReduceEffect(Push(BusName(bus), 35, Text(adapter)), 3, t, c, 11, InputStack());
  }

  lemma BusStacks(bus: string)
    ensures InputStack().Size() == 2 && InputStack().State() == 1
    ensures var a := Push(InputStack(), 4, Nothing);
            && a.Size() == 3 && a.State() == 4 && BusName(bus) == Push(a, 19, Text(bus))
            && BusName(bus).Size() == 4 && BusName(bus).State() == 19
    ensures Number(TBus) == 12 && TokenValue(TBus) == Nothing && YyR1(30) == 35 && YyR1(31) == 36
  {
    assert InputStack().Size() == 2;
  }

  lemma BusBody(bus: string, adapter: string, t: seq<Token>, c: Config)
    ensures Steps(Machine(InputStack(), [TBus, TName(bus), TName(adapter)] + t, c), 6)
         == Running(Machine(Push(InputStack(), 11, Nothing), t, AddBus(c, bus, adapter)))
  {
    hide *;
    LineActions(0);
    Limits(t);
    NameActions(NextNumber([TName(adapter)] + t));
    NameActions(NextNumber(t));
    BusStacks(bus);
    var a, b := Push(InputStack(), 4, Nothing), BusName(bus);
    var d := Push(b, 35, Text(adapter));
    var t1 := [TName(adapter)] + t;
    var t2 := [TName(bus)] + t1;
    assert [TBus, TName(bus), TName(adapter)] + t == [TBus] + t2;
    ShiftStep(InputStack(), TBus, t2, c, 4);
    ReadName(a, bus, t1, c, 18, 30, 35, 19);
    ReadName(b, adapter, t, c, 34, 31, 36, 35);
    BusReduce(bus, adapter, t, c);
    var m0, m1, m2, m3 := Machine(InputStack(), [TBus] + t2, c), Machine(a, t2, c), Machine(b, t1, c), Machine(d, t, c);
    StepOnce(m3);
    Then(m2, 2, m3, 1);
    Then(m1, 2, m2, 3);
    StepThen(m0, m1, 5);
  }

  // The keyword of a statement that begins with a function name, the state it leads to, and the state once
  // the name has been read.

  function NamedKeyword(k: int): Token {
    match k case 5 => TLabel case 6 => TSet case 8 => TCompute case _ => TIgnore
  }

  function NamedState(k: int): int {
    match k case 5 => 21 case 6 => 22 case 8 => 26 case _ => 27
  }

  function NamedStack(k: int, name: string): Stack {
    Push(Push(InputStack(), k, Nothing), NamedState(k), Text(name))
  }

  lemma NamedKeywords()
    ensures NamedKeyword(5) == TLabel && NamedKeyword(6) == TSet && NamedKeyword(8) == TCompute
        && NamedKeyword(9) == TIgnore
  {
  }

  lemma NamedActions(k: int, token: int)
    requires k in {5, 6, 8, 9}
    ensures Decide(1, Number(NamedKeyword(k))) == Shift(k) && Decide(k, 19) == Shift(20)
    ensures Decide(20, token) == Reduce(32) && GoTo(k, 37) == NamedState(k)
  {
    hide *;
    NamedShifts(token);
    NamedGoTo(k);
    LineActions(0);
    NamedNumber(k);
  }

  lemma NamedNumber(k: int)
    requires k in {5, 6, 8, 9}
    ensures Number(NamedKeyword(k)) == k + 8
  {
  }

  lemma NamedShifts(token: int)
    ensures Decide(5, 19) == Decide(6, 19) == Decide(8, 19) == Decide(9, 19) == Shift(20)
        && Decide(20, token) == Reduce(32)
  {
  }

  lemma NamedGoTo(k: int)
    requires k in {5, 6, 8, 9}
    ensures GoTo(k, 37) == NamedState(k)
  {
  }

  lemma ReadNamed(k: int, name: string, t: seq<Token>, c: Config)
    requires k in {5, 6, 8, 9}
    ensures Steps(Machine(InputStack(), [NamedKeyword(k), TName(name)] + t, c), 3)
         == Running(Machine(NamedStack(k, name), t, c))
  {
    NamedActions(k, NextNumber(t));
    var a := Push(InputStack(), k, Nothing);
    assert InputStack().Size() == 2 && a.Size() == 3;
    assert TokenValue(NamedKeyword(k)) == Nothing && YyR1(32) == 37;
    hide Decide, GoTo, Step, NextNumber, Number, YyR1, NamedKeyword, TokenValue, NamedState;
    var t1 := [TName(name)] + t;
    assert [NamedKeyword(k), TName(name)] + t == [NamedKeyword(k)] + t1;
    ShiftStep(InputStack(), NamedKeyword(k), t1, c, k);
    ReadName(a, name, t, c, 20, 32, 37, NamedState(k));
    StepThen(Machine(InputStack(), [NamedKeyword(k)] + t1, c), Machine(a, t1, c), 2);
  }

  /** What a statement whose effect may fail leads to: the finished statement, or a syntax error. */
  function Finished(o: Option<Config>, state: int, t: seq<Token>): Outcome {
    match o
    case None => SyntaxError
    case Some(c) => Running(Machine(Push(InputStack(), state, Nothing), t, c))
  }

  lemma LabelBody(name: string, text: string, t: seq<Token>, c: Config)
    ensures Steps(Machine(InputStack(), [TLabel, TName(name), TName(text)] + t, c), 6)
         == Finished(AddLabel(c, name, text), 12, t)
  {
    var t1 := [TName(text)] + t;
    assert [TLabel, TName(name), TName(text)] + t == [TLabel, TName(name)] + t1;
    ReadNamed(5, name, t1, c);
    NameActions(NextNumber(t));
    var a := NamedStack(5, name);
    var b := Push(a, 37, Text(text));
    TopThree(InputStack(), 5, Nothing, 21, Text(name), 37, Text(text));
    assert InputStack().Size() == 2 && a.Size() == 4;
    assert YyR1(33) == 38 && YyR1(12) == 28 && YyR2(12) == 3;
    assert Effect(b, 12, c) == AddLabel(c, name, text) && Reduced(b, 12) == Nothing;
    hide Decide, GoTo, Step, NextNumber, Reduced, Effect, YyR1, YyR2, Stack.Size, Stack.Pop, Stack.Peek, AddLabel;
    ReadName(a, text, t, c, 36, 33, 38, 37);
    ReduceEffect(b, 3, t, c, 12, InputStack());
    hide InputStack, NamedStack;
    StepOnce(Machine(b, t, c));
    Then(Machine(a, t1, c), 2, Machine(b, t, c), 1);
    Then(Machine(InputStack(), [TLabel, TName(name)] + t1, c), 3, Machine(a, t1, c), 3);
  }

  lemma IgnoreBody(name: string, t: seq<Token>, c: Config)
    ensures Steps(Machine(InputStack(), [TIgnore, TName(name)] + t, c), 4) == Finished(AddIgnore(c, name), 15, t)
  {
    ReadNamed(9, name, t, c);
    NameActions(NextNumber(t));
    var a := NamedStack(9, name);
    TopTwo(InputStack(), 9, Nothing, 27, Text(name));
    assert InputStack().Size() == 2;
    assert YyR1(15) == 31 && YyR2(15) == 2;
    assert Effect(a, 15, c) == AddIgnore(c, name) && Reduced(a, 15) == Nothing;
    hide Decide, GoTo, Step, NextNumber, Reduced, Effect, YyR1, YyR2, Stack.Size, Stack.Pop, Stack.Peek, AddIgnore;
    ReduceEffect(a, 2, t, c, 15, InputStack());
    hide InputStack, NamedStack;
    StepOnce(Machine(a, t, c));
    Then(Machine(InputStack(), [TIgnore, TName(name)] + t, c), 3, Machine(a, t, c), 1);
  }

  lemma StatementEndActions()
    ensures Decide(45, 11) == Reduce(13) && GoTo(1, 29) == 13
    ensures Decide(47, 10) == Shift(56) && Decide(62, 11) == Reduce(14) && GoTo(1, 30) == 14
    ensures Decide(24, 11) == Reduce(16) && GoTo(1, 32) == 16
  {
  }

  lemma SetReduce(name: string, value: Cst, rest: seq<Token>, c: Config)
    ensures Step(Done(NamedStack(6, name), value, [TEol] + rest, c))
         == Finished(AddSet(c, name, Erase(value)), 13, [TEol] + rest)
  {
    hide *;
    SetTop(name, value, [TEol] + rest, c);
    StatementEnds(Done(NamedStack(6, name), value, [TEol] + rest, c).stack, 3, rest, c, 13,
        AddSet(c, name, Erase(value)));
  }

  lemma SetTop(name: string, value: Cst, rest: seq<Token>, c: Config)
    ensures var m := Done(NamedStack(6, name), value, rest, c);
            && m.input == rest && m.config == c && m.stack.State() == 45
            && m.stack.Size() == 5 && m.stack.Pop(3) == InputStack()
            && Effect(m.stack, 13, c) == AddSet(c, name, Erase(value)) && Reduced(m.stack, 13) == Nothing
            && YyR2(13) == 3
  {
    TopThree(InputStack(), 6, Nothing, 22, Text(name), 45, Tree(Erase(value)));
    assert InputStack().Size() == 2;
    assert YyR2(13) == 3;
    hide YyR2, Stack.Size, Stack.Pop, Stack.Peek, AddSet, Erase, InputStack;
  }

  /** The reduction of a finished statement at its end of line. */
  lemma StatementEnds(st: Stack, len: nat, rest: seq<Token>, c: Config, rule: int, o: Option<Config>)
    requires (rule == 13 && st.State() == 45) || (rule == 14 && st.State() == 62) || (rule == 16 && st.State() == 24)
    requires st.Size() < 20 && YyR2(rule) == len && st.Pop(len) == InputStack()
    requires Effect(st, rule, c) == o && Reduced(st, rule) == Nothing
    ensures Step(Machine(st, [TEol] + rest, c))
        == Finished(o, if rule == 13 then 13 else if rule == 14 then 14 else 16, [TEol] + rest)
  {
    hide *;
    StatementEndActions();
    Limits([TEol] + rest);
    ReduceEffect(st, len, [TEol] + rest, c, rule, InputStack());
    OutcomeMeans(o, if rule == 13 then 13 else if rule == 14 then 14 else 16, [TEol] + rest);
  }

  lemma OutcomeMeans(o: Option<Config>, state: int, t: seq<Token>)
    ensures Finished(o, state, t) ==
      match o case None => SyntaxError case Some(c) => Running(Machine(Push(InputStack(), state, Nothing), t, c))
  {
    hide InputStack;
  }

  lemma Limits(t: seq<Token>)
    ensures YYMAXDEPTH == 10000 && YYFINAL == 2 && InputStack().State() == 1
    ensures YyR1(13) == 29 && YyR1(14) == 30 && YyR1(16) == 32
    ensures t != [] && t[0] == TEol ==> NextNumber(t) == 11
  {
  }

  /** How a statement ends, in the presence of stack overflow. */
  function BodyFate(peak: nat, o: Outcome): Outcome {
    if 2 + peak < YYMAXDEPTH then o else Exhausted
  }

  /** The statement's tokens up to its end of line have this fate after n steps. */
  predicate BodyReads(s: Stmt, rest: seq<Token>, c: Config, n: nat) {
    Steps(Machine(InputStack(), YieldBody(s) + ([TEol] + rest), c), n)
    == BodyFate(PeakStmt(s), Finished(Exec(c, s), StmtState(s), [TEol] + rest))
  }

  lemma SetFits(name: string, value: Cst, rest: seq<Token>)
    requires Wf(value)
    ensures Fits(value, NamedStack(6, name), [TEol] + rest) && NamedStack(6, name).Size() == 4
  {
    assert InputStack().Size() == 2;
  }

  lemma SetBodyMeans(name: string, value: Cst, rest: seq<Token>, c: Config, n: nat)
    requires Steps(Machine(InputStack(), [TSet, TName(name)] + (Yield(value) + ([TEol] + rest)), c), n)
          == if 4 + Peak(value) < YYMAXDEPTH then Finished(AddSet(c, name, Erase(value)), 13, [TEol] + rest)
              else Exhausted
    ensures BodyReads(SetStmt(name, value), rest, c, n)
  {
    hide Steps, Yield, Peak, Erase, AddSet, InputStack, Finished;
    Associate([TSet, TName(name)], Yield(value), [TEol] + rest);
  }

  /** Some steps, an expression, and one more step. */
  lemma GlueExpr(m0: Machine, a: nat, m1: Machine, k: nat, peak: nat, m2: Machine)
    requires Steps(m0, a) == Running(m1) && Steps(m1, k) == Fate(peak, m2)
    ensures Steps(m0, a + (k + 1)) == if peak < YYMAXDEPTH then Step(m2) else Exhausted
  {
    hide Step, Steps, Fate;
    Then(m0, a, m1, k + 1);
    Chain(m1, k, peak, m2, 1);
    StepOnce(m2);
  }

  lemma SetBody(name: string, value: Cst, rest: seq<Token>, c: Config) returns (n: nat)
    requires Wf(value)
    ensures BodyReads(SetStmt(name, value), rest, c, n)
  {
    hide *;
    var t := [TEol] + rest;
    SetFits(name, value, rest);
    var k := ParseExpr(value, NamedStack(6, name), t, c);
    ReadsMeans(value, NamedStack(6, name), t, c, k);
    ReadNamed(6, name, Yield(value) + t, c);
    NamedKeywords();
    SetReduce(name, value, rest, c);
    GlueExpr(Machine(InputStack(), [TSet, TName(name)] + (Yield(value) + t), c), 3,
      Machine(NamedStack(6, name), Yield(value) + t, c), k, 4 + Peak(value), Done(NamedStack(6, name), value, t, c));
    n := 3 + (k + 1);
    SetBodyMeans(name, value, rest, c, n);
  }

  // compute

  function CommaStack(name: string, f: Cst): Stack {
    Push(Push(NamedStack(8, name), 47, Tree(Erase(f))), 56, Nothing)
  }

  lemma ComputeFits(name: string, f: Cst, t: Cst, rest: seq<Token>)
    requires Wf(f) && Wf(t)
    ensures Fits(f, NamedStack(8, name), [TComma] + (Yield(t) + ([TEol] + rest))) && NamedStack(8, name).Size() == 4
    ensures Fits(t, CommaStack(name, f), [TEol] + rest) && CommaStack(name, f).Size() == 6
  {
    assert InputStack().Size() == 2;
    assert NamedStack(8, name).Size() == 4;
  }

  lemma CommaShift(name: string, f: Cst, rest: seq<Token>, c: Config)
    ensures Step(Done(NamedStack(8, name), f, [TComma] + rest, c)) == Running(Machine(CommaStack(name, f), rest, c))
  {
    hide *;
    StatementEndActions();
    Limits(rest);
    CommaTop(name, f, [TComma] + rest, c);
    ShiftStep(Done(NamedStack(8, name), f, [TComma] + rest, c).stack, TComma, rest, c, 56);
  }

  lemma CommaTop(name: string, f: Cst, rest: seq<Token>, c: Config)
    ensures var m := Done(NamedStack(8, name), f, rest, c);
            && m == Machine(m.stack, rest, c) && m.stack.State() == 47 && m.stack.Size() == 5
            && CommaStack(name, f) == Push(m.stack, 56, Nothing)
    ensures Number(TComma) == 10 && TokenValue(TComma) == Nothing
  {
    assert InputStack().Size() == 2;
    assert NamedStack(8, name).Size() == 4;
    hide Erase;
  }

  lemma ComputeReduce(name: string, f: Cst, t: Cst, rest: seq<Token>, c: Config)
    ensures Step(Done(CommaStack(name, f), t, [TEol] + rest, c))
         == Finished(AddCompute(c, name, Erase(f), Erase(t)), 14, [TEol] + rest)
  {
    hide *;
    ComputeTop(name, f, t, [TEol] + rest, c);
    StatementEnds(Done(CommaStack(name, f), t, [TEol] + rest, c).stack, 5, rest, c, 14,
      AddCompute(c, name, Erase(f), Erase(t)));
  }

  lemma ComputeTop(name: string, f: Cst, t: Cst, rest: seq<Token>, c: Config)
    ensures var m := Done(CommaStack(name, f), t, rest, c);
            && m.input == rest && m.config == c && m.stack.State() == 62
            && m.stack.Size() == 7 && m.stack.Pop(5) == InputStack()
            && Effect(m.stack, 14, c) == AddCompute(c, name, Erase(f), Erase(t)) && Reduced(m.stack, 14) == Nothing
            && YyR2(14) == 5
  {
    hide *;
    ComputeStack(name, f, t, rest, c);
    var st := Done(CommaStack(name, f), t, rest, c).stack;
    TopFive(InputStack(), 8, Nothing, 26, Text(name), 47, Tree(Erase(f)), 56, Nothing, 62, Tree(Erase(t)));
    ComputeAction(st, name, Erase(f), Erase(t), c);
  }

  lemma ComputeStack(name: string, f: Cst, t: Cst, rest: seq<Token>, c: Config)
    ensures var m := Done(CommaStack(name, f), t, rest, c);
            && m.input == rest && m.config == c && m.stack.State() == 62 && InputStack().Size() == 2
            && m.stack == Push(Push(Push(Push(Push(InputStack(), 8, Nothing), 26, Text(name)), 47, Tree(Erase(f))),
                  56, Nothing),
                               62, Tree(Erase(t)))
  {
    assert InputStack().Size() == 2;
    hide InputStack, Erase;
  }

  lemma ComputeAction(st: Stack, name: string, f: Expr, t: Expr, c: Config)
    requires st.Peek(3) == Text(name) && st.Peek(2) == Tree(f) && st.Peek(0) == Tree(t) && st.Peek(4) == Nothing
    ensures Effect(st, 14, c) == AddCompute(c, name, f, t) && Reduced(st, 14) == Nothing && YyR2(14) == 5
  {
    assert YyR2(14) == 5;
    hide YyR2, Stack.Peek, AddCompute;
  }

  lemma YieldCompute(name: string, f: Cst, t: Cst, rest: seq<Token>)
    ensures YieldBody(ComputeStmt(name, f, t)) + rest
         == [TCompute, TName(name)] + (Yield(f) + ([TComma] + (Yield(t) + rest)))
  {
    Associate([TCompute, TName(name)], Yield(f) + ([TComma] + Yield(t)), rest);
    Associate(Yield(f), [TComma] + Yield(t), rest);
    Associate([TComma], Yield(t), rest);
  }

  lemma ComputeBodyMeans(name: string, f: Cst, t: Cst, rest: seq<Token>, c: Config, n: nat)
    requires Steps(Machine(InputStack(),
        [TCompute, TName(name)] + (Yield(f) + ([TComma] + (Yield(t) + ([TEol] + rest)))), c), n)
          == if 4 + Peak(f) < YYMAXDEPTH && 6 + Peak(t) < YYMAXDEPTH
             then Finished(AddCompute(c, name, Erase(f), Erase(t)), 14, [TEol] + rest) else Exhausted
    ensures BodyReads(ComputeStmt(name, f, t), rest, c, n)
  {
    hide Steps, Yield, YieldBody, Peak, Erase, AddCompute, InputStack, Finished;
    YieldCompute(name, f, t, [TEol] + rest);
  }

  lemma ComputeBody(name: string, f: Cst, t: Cst, rest: seq<Token>, c: Config) returns (n: nat)
    requires Wf(f) && Wf(t)
    ensures BodyReads(ComputeStmt(name, f, t), rest, c, n)
  {
    hide *;
    ComputeFits(name, f, t, rest);
    var eol := [TEol] + rest;
    var tail := Yield(t) + eol;
    ReadNamed(8, name, Yield(f) + ([TComma] + tail), c);
    NamedKeywords();
    var k1 := ParseExpr(f, NamedStack(8, name), [TComma] + tail, c);
    ReadsMeans(f, NamedStack(8, name), [TComma] + tail, c, k1);
    CommaShift(name, f, tail, c);
    var k2 := ParseExpr(t, CommaStack(name, f), eol, c);
    ReadsMeans(t, CommaStack(name, f), eol, c, k2);
    ComputeReduce(name, f, t, rest, c);
    var m0 := Machine(InputStack(), [TCompute, TName(name)] + (Yield(f) + ([TComma] + tail)), c);
    var m1 := Machine(NamedStack(8, name), Yield(f) + ([TComma] + tail), c);
    var m2 := Done(NamedStack(8, name), f, [TComma] + tail, c);
    var m3 := Machine(CommaStack(name, f), tail, c);
    StepsNone(m3);
    GlueExpr(m3, 0, m3, k2, 6 + Peak(t), Done(CommaStack(name, f), t, eol, c));
    GlueTwo(m0, 3, m1, k1, 4 + Peak(f), m2, m3, k2 + 1);
    n := 3 + (k1 + 1 + (k2 + 1));
    ComputeBodyMeans(name, f, t, rest, c, n);
  }

  /** Some steps, an expression, one more step, and more steps from there. */
  lemma GlueTwo(m0: Machine, a: nat, m1: Machine, k: nat, peak: nat, m2: Machine, m3: Machine, b: nat)
    requires Steps(m0, a) == Running(m1) && Steps(m1, k) == Fate(peak, m2) && Step(m2) == Running(m3)
    ensures Steps(m0, a + (k + 1 + b)) == if peak < YYMAXDEPTH then Steps(m3, b) else Exhausted
  {
    hide Step, Steps, Fate;
    ChainStep(m1, k, peak, m2, m3);
    Chain(m1, k + 1, peak, m3, b);
    Then(m0, a, m1, k + 1 + b);
  }

  // chip

  lemma ChipActions(token: int)
    ensures Decide(7, 19) == Shift(23) && Decide(24, 19) == Shift(23) && Decide(23, token) == Reduce(34)
    ensures GoTo(7, 39) == 25 && Decide(25, token) == Reduce(17) && GoTo(7, 33) == 24
    ensures GoTo(24, 39) == 46 && Decide(46, token) == Reduce(18)
  {
  }

  function ChipKeyword(): Stack {
    Push(InputStack(), 7, Nothing)
  }

  lemma FirstName(name: string, t: seq<Token>, c: Config)
    ensures Steps(Machine(ChipKeyword(), [TName(name)] + t, c), 3)
         == Running(Machine(Push(ChipKeyword(), 24, Names([name])), t, c))
  {
    ChipActions(NextNumber(t));
    var a := ChipKeyword();
    var b := Push(a, 25, Text(name));
    assert InputStack().Size() == 2;
    assert a.Size() == 3 && b.Size() == 4 && b.Pop(1) == a && b.Peek(0) == Text(name);
    assert YyR1(34) == 39 && YyR1(17) == 33 && YyR2(17) == 1;
    assert Effect(b, 17, c) == Some(c) && Reduced(b, 17) == Names([name]);
    hide Decide, GoTo, Step, NextNumber, Reduced, Effect, YyR1, YyR2, Stack.Size, Stack.Pop, Stack.Peek;
    ReadName(a, name, t, c, 23, 34, 39, 25);
    ReduceStep(b, 1, t, c, 17, a);
    StepOnce(Machine(b, t, c));
    Then(Machine(a, [TName(name)] + t, c), 2, Machine(b, t, c), 1);
  }

  lemma NextName(names: seq<string>, name: string, t: seq<Token>, c: Config)
    ensures Steps(Machine(Push(ChipKeyword(), 24, Names(names)), [TName(name)] + t, c), 3)
         == Running(Machine(Push(ChipKeyword(), 24, Names(names + [name])), t, c))
  {
    ChipActions(NextNumber(t));
    var a := Push(ChipKeyword(), 24, Names(names));
    var b := Push(a, 46, Text(name));
    TopTwo(ChipKeyword(), 24, Names(names), 46, Text(name));
    assert InputStack().Size() == 2;
    assert a.Size() == 4 && b.Size() == 5;
    assert YyR1(34) == 39 && YyR1(18) == 33 && YyR2(18) == 2;
    assert Effect(b, 18, c) == Some(c) && Reduced(b, 18) == Names(names + [name]);
    hide Decide, GoTo, Step, NextNumber, Reduced, Effect, YyR1, YyR2, Stack.Size, Stack.Pop, Stack.Peek;
    ReadName(a, name, t, c, 23, 34, 39, 46);
    ReduceStep(b, 2, t, c, 18, ChipKeyword());
    StepOnce(Machine(b, t, c));
    Then(Machine(a, [TName(name)] + t, c), 2, Machine(b, t, c), 1);
  }

  lemma SplitNames(names: seq<string>, t: seq<Token>)
    requires names != []
    ensures var front, last := names[..|names| - 1], names[|names| - 1];
            && names == front + [last] && (front == [] ==> names == [last])
            && NameTokens(names) + t == NameTokens(front) + ([TName(last)] + t)
            && (front == [] ==> NameTokens(names) + t == [TName(last)] + t)
  {
    Associate(NameTokens(names[..|names| - 1]), [TName(names[|names| - 1])], t);
  }

  lemma {:induction false} ReadNames(names: seq<string>, t: seq<Token>, c: Config) returns (n: nat)
    requires names != []
    ensures Steps(Machine(ChipKeyword(), NameTokens(names) + t, c), n)
         == Running(Machine(Push(ChipKeyword(), 24, Names(names)), t, c))
    decreases |names|
  {
    hide *;
    SplitNames(names, t);
    var front, last := names[..|names| - 1], names[|names| - 1];
    if front == [] {
      FirstName(last, t, c);
      n := 3;
    } else {
      var k := ReadNames(front, [TName(last)] + t, c);
      NextName(front, last, t, c);
      Then(Machine(ChipKeyword(), NameTokens(names) + t, c), k,
        Machine(Push(ChipKeyword(), 24, Names(front)), [TName(last)] + t, c), 3);
      n := k + 3;
    }
  }

  lemma ChipEnds(names: seq<string>, rest: seq<Token>, c: Config)
    ensures Step(Machine(Push(ChipKeyword(), 24, Names(names)), [TEol] + rest, c))
         == Finished(Some(AddChip(c, names)), 16, [TEol] + rest)
  {
    hide *;
    ChipTop(names, c);
    StatementEnds(Push(ChipKeyword(), 24, Names(names)), 2, rest, c, 16, Some(AddChip(c, names)));
  }

  lemma ChipTop(names: seq<string>, c: Config)
    ensures var st := Push(ChipKeyword(), 24, Names(names));
            && st.State() == 24 && st.Size() == 4 && st.Pop(2) == InputStack()
            && Effect(st, 16, c) == Some(AddChip(c, names)) && Reduced(st, 16) == Nothing && YyR2(16) == 2
  {
    TopTwo(InputStack(), 7, Nothing, 24, Names(names));
    assert InputStack().Size() == 2;
    assert YyR2(16) == 2;
    hide YyR2, Stack.Size, Stack.Pop, Stack.Peek, AddChip, InputStack;
  }

  lemma ChipShift(rest: seq<Token>, c: Config)
    ensures Step(Machine(InputStack(), [TChip] + rest, c)) == Running(Machine(ChipKeyword(), rest, c))
  {
    LineActions(0);
    assert InputStack().Size() == 2;
    hide Decide, Step, Stack.Size;
    ShiftStep(InputStack(), TChip, rest, c, 7);
  }

  lemma ChipBodyMeans(names: seq<string>, rest: seq<Token>, c: Config, n: nat)
    requires Steps(Machine(InputStack(), [TChip] + (NameTokens(names) + ([TEol] + rest)), c), n)
          == Finished(Some(AddChip(c, names)), 16, [TEol] + rest)
    ensures BodyReads(ChipStmt(names), rest, c, n)
  {
    hide Steps, NameTokens, AddChip, InputStack, Finished;
    Associate([TChip], NameTokens(names), [TEol] + rest);
  }

  lemma ChipBody(names: seq<string>, rest: seq<Token>, c: Config) returns (n: nat)
    requires names != []
    ensures BodyReads(ChipStmt(names), rest, c, n)
  {
    hide *;
    var t := [TEol] + rest;
    ChipShift(NameTokens(names) + t, c);
    var k := ReadNames(names, t, c);
    ChipEnds(names, rest, c);
    var m1 := Machine(ChipKeyword(), NameTokens(names) + t, c);
    var m2 := Machine(Push(ChipKeyword(), 24, Names(names)), t, c);
    StepThen(Machine(InputStack(), [TChip] + (NameTokens(names) + t), c), m1, k + 1);
    Then(m1, k, m2, 1);
    StepOnce(m2);
    n := 1 + (k + 1);
    ChipBodyMeans(names, rest, c, n);
  }

  // ----- whole files

  lemma ParseBody(s: Stmt, rest: seq<Token>, c: Config) returns (n: nat)
    requires WfStmt(s)
    ensures BodyReads(s, rest, c, n)
  {
    match s
    case BusStmt(bus, adapter) =>
      BusBody(bus, adapter, [TEol] + rest, c);
      hide Steps, InputStack, AddBus;
      n := 6;
    case LabelStmt(name, text) =>
      LabelBody(name, text, [TEol] + rest, c);
      hide Steps, InputStack, AddLabel;
      n := 6;
    case SetStmt(name, value) =>
      hide BodyReads;
      n := SetBody(name, value, rest, c);
    case ComputeStmt(name, f, t) =>
      hide BodyReads;
      n := ComputeBody(name, f, t, rest, c);
    case IgnoreStmt(name) =>
      IgnoreBody(name, [TEol] + rest, c);
      hide Steps, InputStack, AddIgnore;
      n := 4;
    case ChipStmt(names) =>
      hide BodyReads;
      n := ChipBody(names, rest, c);
  }

  /** Where the parser is when the statements before `rest` have gone as `v` says. */
  function Onward(v: Outcome, rest: seq<Token>): Outcome {
    match v
    case Accepted(c) => Running(Machine(InputStack(), rest, c))
    case o => o
  }

  lemma BodyOutcome(s: Stmt, rest: seq<Token>, c: Config, n: nat)
    requires BodyReads(s, rest, c, n)
    ensures Steps(Machine(InputStack(), YieldBody(s) + ([TEol] + rest), c), n)
         == match StmtVerdict(c, s)
            case Accepted(c2) => Running(Machine(Push(InputStack(), StmtState(s), Nothing), [TEol] + rest, c2))
            case o => o
    ensures !StmtVerdict(c, s).Running?
  {
    hide Steps, YieldBody, Exec, PeakStmt, StmtState, InputStack;
  }

  lemma OnwardIs(v: Outcome, rest: seq<Token>)
    ensures Onward(v, rest) == match v case Accepted(c) => Running(Machine(InputStack(), rest, c)) case o => o
  {
  }

  lemma ParseStmt(s: Stmt, rest: seq<Token>, c: Config) returns (n: nat)
    requires WfStmt(s)
    ensures Steps(Machine(InputStack(), YieldBody(s) + [TEol] + rest, c), n) == Onward(StmtVerdict(c, s), rest)
  {
    hide *;
    Associate(YieldBody(s), [TEol], rest);
    var k := ParseBody(s, rest, c);
    BodyOutcome(s, rest, c, k);
    OnwardIs(StmtVerdict(c, s), rest);
    n := k + 3;
    StepsCompose(Machine(InputStack(), YieldBody(s) + ([TEol] + rest), c), k, 3);
    match StmtVerdict(c, s)
    case Accepted(c2) => EndLine(s, rest, c2);
    case _ =>
  }

  lemma SplitFile(ss: seq<Stmt>, rest: seq<Token>)
    requires ss != [] && WfAll(ss)
    ensures var front, last := ss[..|ss| - 1], ss[|ss| - 1];
            && WfAll(front) && WfStmt(last)
            && YieldAll(ss) + rest == YieldAll(front) + (YieldBody(last) + [TEol] + rest)
    ensures Verdict(ss) == match Verdict(ss[..|ss| - 1]) case Accepted(c) => StmtVerdict(c, ss[|ss| - 1]) case o => o
  {
    hide YieldBody, WfStmt, StmtVerdict;
    Associate(YieldAll(ss[..|ss| - 1]), YieldBody(ss[|ss| - 1]) + [TEol], rest);
  }

  lemma EmptyFile(rest: seq<Token>)
    ensures YieldAll([]) + rest == rest && Verdict([]) == Accepted(Config([], []))
    ensures Onward(Verdict([]), rest) == Running(Machine(InputStack(), rest, Config([], [])))
  {
  }

  lemma {:induction false} ParseLines(ss: seq<Stmt>, rest: seq<Token>) returns (n: nat)
    requires WfAll(ss)
    ensures Steps(Machine(InputStack(), YieldAll(ss) + rest, Config([], [])), n) == Onward(Verdict(ss), rest)
    decreases |ss|
  {
    hide *;
    var start := Machine(InputStack(), YieldAll(ss) + rest, Config([], []));
    if ss == [] {
      EmptyFile(rest);
      StepsNone(start);
      n := 0;
    } else {
      SplitFile(ss, rest);
      var front, last := ss[..|ss| - 1], ss[|ss| - 1];
      var rest' := YieldBody(last) + [TEol] + rest;
      var k := ParseLines(front, rest');
      OnwardIs(Verdict(front), rest');
      OnwardIs(Verdict(ss), rest);
      match Verdict(front)
      case Accepted(c) =>
        var j := ParseStmt(last, rest, c);
        StepsCompose(start, k, j);
        n := k + j;
      case _ =>
        n := k;
    }
  }

  lemma StepsNone(m: Machine)
    ensures Steps(m, 0) == Running(m)
  {
  }

  lemma FirstStep(tokens: seq<Token>)
    ensures Step(Start(tokens)) == Running(Machine(InputStack(), tokens, Config([], [])))
  {
    LineActions(NextNumber(tokens));
    assert Bottom.Pop(0) == Bottom && Bottom.Size() == 1;
    hide Decide, GoTo, NextNumber;
    ReduceStep(Bottom, 0, tokens, Config([], []), 2, Bottom);
  }

  lemma LastSteps(c: Config)
    ensures Steps(Machine(InputStack(), [], c), 2) == Accepted(c)
  {
    LineActions(0);
    var st := Push(InputStack(), 2, Nothing);
    assert InputStack().Size() == 2 && st.Size() == 3;
    hide Decide;
    var m := Machine(InputStack(), [], c);
    assert Step(m) == Running(Machine(st, [], c));
    assert Step(Machine(st, [], c)) == Accepted(c);
    StepThen(m, Machine(st, [], c), 1);
    StepOnce(Machine(st, [], c));
  }

  lemma EndsAt(tokens: seq<Token>, n: nat, o: Outcome)
    requires Steps(Start(tokens), n) == o && !o.Running?
    ensures Ends(tokens, o)
  {
    hide Steps, Start;
  }

  lemma {:induction false} VerdictStops(ss: seq<Stmt>)
    ensures !Verdict(ss).Running?
    decreases |ss|
  {
    if ss != [] {
      VerdictStops(ss[..|ss| - 1]);
    }
  }

  /** Completeness: on the tokens of any file of the grammar, whatever parentheses its expressions have, the
      table-driven parser ends as the grammar says, with the configuration its statements build. */
  lemma FilesParse(ss: seq<Stmt>)
    requires WfAll(ss)
    ensures Ends(YieldAll(ss), Verdict(ss))
  {
    hide *;
    var tokens := YieldAll(ss);
    assert tokens + [] == tokens;
    FirstStep(tokens);
    var n := ParseLines(ss, []);
    OnwardIs(Verdict(ss), []);
    VerdictStops(ss);
    var m := Machine(InputStack(), tokens, Config([], []));
    var v := Verdict(ss);
    if v.Accepted? {
      var c := v.config;
      LastSteps(c);
      Then(m, n, Machine(InputStack(), [], c), 2);
      StepThen(Start(tokens), m, n + 2);
      EndsAt(tokens, 1 + (n + 2), v);
    } else {
      StepThen(Start(tokens), m, n);
      EndsAt(tokens, 1 + n, v);
    }
  }

  /** Within the stack's limit, parsing a file gives just what executing its statements gives, and a file
      is a syntax error exactly when a statement precedes the first chip section. */
  lemma {:induction false} VerdictIsExec(ss: seq<Stmt>)
    requires forall i | 0 <= i < |ss| :: 2 + PeakStmt(ss[i]) < YYMAXDEPTH
    ensures Verdict(ss) == match ExecAll(ss) case None => SyntaxError case Some(c) => Accepted(c)
    decreases |ss|
  {
    if ss != [] {
      VerdictIsExec(ss[..|ss| - 1]);
    }
  }

  /** Printing an expression with only the parentheses it needs and parsing it gives it back: a file that
      sets one subfeature to it under some chip parses to just that. */
  lemma PrintedExpressionParses(chip: string, name: string, e: Expr)
    requires 4 + Peak(Minimal(e, 0)) < YYMAXDEPTH
    ensures Ends([TChip, TName(chip), TEol, TSet, TName(name)] + Yield(Minimal(e, 0)) + [TEol],
                 Accepted(Config([], [Chip([chip], [], [Setting(name, e)], [], [])])))
  {
    MinimalIsWf(e, 0);
    var value := Minimal(e, 0);
    var s0, s1 := ChipStmt([chip]), SetStmt(name, value);
    TwoStatements(s0, s1, chip, name, e, value);
    FilesParse([s0, s1]);
    hide Ends, Verdict, YieldAll, Yield, Minimal;
  }

  lemma TwoStatements(s0: Stmt, s1: Stmt, chip: string, name: string, e: Expr, value: Cst)
    requires s0 == ChipStmt([chip]) && s1 == SetStmt(name, value) && Erase(value) == e && Wf(value)
    requires 4 + Peak(value) < YYMAXDEPTH
    ensures WfAll([s0, s1])
    ensures YieldAll([s0, s1]) == [TChip, TName(chip), TEol, TSet, TName(name)] + Yield(value) + [TEol]
    ensures Verdict([s0, s1]) == Accepted(Config([], [Chip([chip], [], [Setting(name, e)], [], [])]))
  {
    OneChip(chip);
    var ss := [s0, s1];
    assert ss[..1] == [s0];
    hide Yield, Peak, Erase, Wf, Verdict, YieldAll;
    assert YieldAll(ss) == YieldAll([s0]) + (YieldBody(s1) + [TEol]) by { YieldTwo(s0, s1); }
    Associate([TChip, TName(chip), TEol], [TSet, TName(name)] + Yield(value), [TEol]);
    Associate([TChip, TName(chip), TEol], [TSet, TName(name)], Yield(value));
    assert [TChip, TName(chip), TEol] + [TSet, TName(name)] == [TChip, TName(chip), TEol, TSet, TName(name)];
    VerdictTwo(s0, s1, chip, name, value);
  }

  lemma OneChip(chip: string)
    ensures YieldAll([ChipStmt([chip])]) == [TChip, TName(chip), TEol]
    ensures Verdict([ChipStmt([chip])]) == Accepted(AddChip(Config([], []), [chip]))
  {
    var ss := [ChipStmt([chip])];
    assert ss[..0] == [] && [chip][..0] == [];
    assert NameTokens([chip]) == [TName(chip)];
  }

  lemma YieldTwo(s0: Stmt, s1: Stmt)
    ensures YieldAll([s0, s1]) == YieldAll([s0]) + (YieldBody(s1) + [TEol])
  {
    hide YieldBody;
    assert [s0, s1][..1] == [s0];
  }

  lemma VerdictTwo(s0: Stmt, s1: Stmt, chip: string, name: string, value: Cst)
    requires s1 == SetStmt(name, value) && 4 + Peak(value) < YYMAXDEPTH
    requires Verdict([s0]) == Accepted(AddChip(Config([], []), [chip]))
    ensures Verdict([s0, s1]) == Accepted(Config([], [Chip([chip], [], [Setting(name, Erase(value))], [], [])]))
  {
    hide Peak, Erase;
    assert [s0, s1][..1] == [s0];
    var c := AddChip(Config([], []), [chip]);
    assert c.chips == [Chip([chip], [], [], [], [])];
    var setting := Setting(name, Erase(value));
    assert [] + [setting] == [setting];
    assert c.chips[0 := Chip([chip], [], [setting], [], [])] == [Chip([chip], [], [setting], [], [])];
    assert AddSet(c, name, Erase(value)) == Some(Config([], [Chip([chip], [], [setting], [], [])]));
    assert Verdict([s0, s1]) == StmtVerdict(c, s1);
  }
}
