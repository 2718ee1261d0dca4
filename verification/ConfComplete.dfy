/** The parser accepts every file of the grammar and builds what the grammar says, as long as its stack
    has room. */
module ConfComplete {
  import opened Basics
  import opened ConfTables
  import opened SensorExpr
  import opened ConfParse
  import opened ConfGrammar

  /** The states in which an expression may begin, and the state each goes to when one is complete. */
  predicate Begins(q: int) {
    q in {22, 26, 38, 39, 40, 44, 52, 53, 54, 55, 56}
  }

  function After(q: int): int {
    match q
    case 22 => 45 case 26 => 47 case 38 => 48 case 39 => 49 case 40 => 50 case 44 => 51
    case 52 => 58 case 53 => 59 case 54 => 60 case 55 => 61
    case _ => 62
  }

  /** The least level of an expression that begins in a state. */
  function Required(q: int): nat {
    if q in {22, 26, 44, 56} then 0 else if q in {52, 53} then 1 else 2
  }

  function BinState(op: BinOp): int {
    match op case Subtract => 52 case Add => 53 case Multiply => 54 case Divide => 55
  }

  function PreState(op: UnOp): int {
    match op case Negate => 38 case Exp => 39 case Log => 40
  }

  function BinRule(op: BinOp): int {
    match op case Add => 22 case Subtract => 23 case Multiply => 24 case Divide => 25
  }

  function PreRule(op: UnOp): int {
    match op case Negate => 26 case Exp => 28 case Log => 29
  }

  // ----- what the tables say about expressions

  lemma BeginRow(q: int)
    requires Begins(q)
    ensures YyPact(q) == 14 && q != YYFINAL
  {
  }

  lemma BeginGoTo(q: int)
    requires Begins(q)
    ensures GoTo(q, 34) == After(q)
  {
    assert YyPGoto(10) == -26 && YyDefGoto(10) == 45;
    hide YyPGoto, YyDefGoto;
  }

  lemma BeginActions(q: int)
    requires Begins(q)
    ensures Decide(q, 18) == Shift(41) && Decide(q, 19) == Shift(42) && Decide(q, 21) == Shift(43)
    ensures Decide(q, 22) == Shift(44)
    ensures Decide(q, 3) == Shift(38) && Decide(q, 8) == Shift(39) && Decide(q, 9) == Shift(40)
    ensures GoTo(q, 34) == After(q) && q != YYFINAL
  {
    BeginRow(q);
    BeginGoTo(q);
    hide YyPact, YyDefAct, GoTo, Begins, After, Default;
  }

  lemma AtomActions(token: int)
    ensures Decide(41, token) == Reduce(19) && Decide(42, token) == Reduce(20) && Decide(43, token) == Reduce(21)
    ensures Decide(57, token) == Reduce(27) && Decide(51, 23) == Shift(57)
    ensures Decide(48, token) == Reduce(26) && Decide(49, token) == Reduce(28) && Decide(50, token) == Reduce(29)
  {
  }

  /** The row of a state with a complete operand, as a function of the operators it lets extend it. */
  lemma OperandRows(q: int, op: BinOp)
    requires Begins(q) && Required(q) <= OpLevel(op)
    ensures After(q) in {45, 47, 51, 58, 59, 62}
    ensures OpLevel(op) == 0 ==> After(q) in {45, 47, 51, 62}
    ensures YyPact(After(q)) == match After(q) case 47 => 5 case 51 => -2 case 58 => 0 case 59 => 0 case _ => 36
  {
  }

  /** An operator is shifted where its left operand is complete. */
  lemma OperatorActions(q: int, op: BinOp)
    requires Begins(q) && Required(q) <= OpLevel(op)
    ensures Decide(After(q), Number(BinToken(op))) == Shift(BinState(op)) && After(q) != YYFINAL
  {
    OperandRows(q, op);
    hide YyPact, YyDefAct, After, Default;
    match op
    case Add =>
    case Subtract =>
    case Multiply =>
    case Divide =>
  }

  /** Where the right operand of an operator is complete, the parser reduces, except that a sum waits for
      a product. */
  lemma OperandActions(op: BinOp, token: int)
    requires OpLevel(op) == 0 ==> token != 5 && token != 6
    requires 0 <= token < 24
    ensures Decide(After(BinState(op)), token) == Reduce(BinRule(op))
  {
    RightRow(op);
    if OpLevel(op) == 0 {
      SumRow(token);
    }
    hide YyPact, YyCheck, YyTable, YyDefAct, After, BinState, BinRule, OpLevel;
  }

  lemma RightRow(op: BinOp)
    ensures YyPact(After(BinState(op))) == if OpLevel(op) == 0 then 0 else YYPACT_NINF
    ensures YyDefAct(After(BinState(op))) == BinRule(op) != 0
  {
    match op
    case Add =>
    case Subtract =>
    case Multiply =>
    case Divide =>
  }

  /** The row that starts at 0 has entries for the two tighter operators only. */
  lemma SumRow(token: int)
    requires 0 <= token < 24 && token != 5 && token != 6
    ensures YyCheck(token) != token
  {
  }

  // ----- single steps

  /** The end of a stretch of steps whose highest stack is `size`. */
  function Fate(size: nat, m: Machine): Outcome {
    if size < YYMAXDEPTH then Running(m) else Exhausted
  }

  lemma NumberRange(t: Token)
    ensures 3 <= Number(t) < 24
  {
  }

  lemma ShiftStep(st: Stack, t: Token, rest: seq<Token>, c: Config, next: int)
    requires st.Size() < YYMAXDEPTH && st.State() != YYFINAL
    requires Decide(st.State(), Number(t)) == Shift(next)
    ensures Step(Machine(st, [t] + rest, c)) == Running(Machine(Push(st, next, TokenValue(t)), rest, c))
  {
    hide Decide, Stack.Size, Stack.State, Number;
    assert ([t] + rest)[1..] == rest;
  }

  lemma StepOnce(m: Machine)
    ensures Steps(m, 1) == Step(m)
  {
    hide Step;
    if Step(m).Running? {
      assert Steps(Step(m).machine, 0) == Step(m);
    }
  }

  lemma Then(m: Machine, a: nat, mid: Machine, b: nat)
    requires Steps(m, a) == Running(mid)
    ensures Steps(m, a + b) == Steps(mid, b)
  {
    StepsCompose(m, a, b);
  }

  lemma StepThen(m: Machine, mid: Machine, b: nat)
    requires Step(m) == Running(mid)
    ensures Steps(m, 1 + b) == Steps(mid, b)
  {
    hide Step;
  }

  // ----- expressions

  lemma ReduceStep(st: Stack, len: nat, rest: seq<Token>, c: Config, rule: int, below: Stack)
    requires st.Size() < YYMAXDEPTH && st.State() != YYFINAL
    requires Decide(st.State(), NextNumber(rest)) == Reduce(rule) && YyR2(rule) == len && st.Pop(len) == below
    requires Effect(st, rule, c) == Some(c)
    ensures Step(Machine(st, rest, c))
         == Running(Machine(Push(below, GoTo(below.State(), YyR1(rule)), Reduced(st, rule)), rest, c))
  {
    hide Decide, Stack.Size, Stack.State, Stack.Pop, NextNumber, GoTo, YyR1, Reduced, Effect;
  }

  function AtomState(t: Token): int {
    if t.TFloat? then 41 else if t.TName? then 42 else 43
  }

  lemma AtomShift(st: Stack, t: Token, rest: seq<Token>, cfg: Config)
    requires t.TFloat? || t.TName? || t.TAt?
    requires Begins(st.State()) && st.Size() < YYMAXDEPTH
    ensures Step(Machine(st, [t] + rest, cfg))
         == Running(Machine(Push(st, AtomState(t), TokenValue(t)), rest, cfg))
    ensures Push(st, AtomState(t), TokenValue(t)).Size() == st.Size() + 1
  {
    hide *;
    AtomShifts(st.State(), t);
    PushedSize(st, AtomState(t), TokenValue(t));
    ShiftStep(st, t, rest, cfg, AtomState(t));
  }

  lemma AtomShifts(q: int, t: Token)
    requires Begins(q) && (t.TFloat? || t.TName? || t.TAt?)
    ensures Decide(q, Number(t)) == Shift(AtomState(t)) && q != YYFINAL
  {
    BeginActions(q);
    hide Decide, GoTo, After, Begins;
  }

  lemma PushedSize(st: Stack, q: int, v: Value)
    ensures Push(st, q, v).Size() == st.Size() + 1
  {
  }

  lemma ReduceAtom(st: Stack, t: Token, rest: seq<Token>, cfg: Config)
    requires t.TFloat? || t.TName? || t.TAt?
    requires Begins(st.State()) && st.Size() + 1 < YYMAXDEPTH
    ensures var v := Tree(if t.TFloat? then Val(t.value) else if t.TName? then Var(t.text) else Source);
            Step(Machine(Push(st, AtomState(t), TokenValue(t)), rest, cfg))
            == Running(Machine(Push(st, After(st.State()), v), rest, cfg))
  {
    BeginGoTo(st.State());
    AtomActions(NextNumber(rest));
    hide Decide, GoTo, After, NextNumber;
    var s := Push(st, AtomState(t), TokenValue(t));
    assert s.Pop(1) == st;
    ReduceStep(s, 1, rest, cfg, if t.TFloat? then 19 else if t.TName? then 20 else 21, st);
  }

  lemma ParseAtom(c: Cst, st: Stack, rest: seq<Token>, cfg: Config)
    requires c.Num? || c.Id? || c.AtSign?
    requires Begins(st.State()) && st.Size() < YYMAXDEPTH
    ensures Steps(Machine(st, Yield(c) + rest, cfg), 2)
         == Fate(st.Size() + 1, Machine(Push(st, After(st.State()), Tree(Erase(c))), rest, cfg))
  {
    AtomShift(st, Yield(c)[0], rest, cfg);
    hide Decide, GoTo, After, Begins, Step, Steps, Stack.Size, Stack.State, TokenValue, AtomState;
    var t := Yield(c)[0];
    assert Yield(c) == [t];
    var m := Machine(Push(st, AtomState(t), TokenValue(t)), rest, cfg);
    StepThen(Machine(st, Yield(c) + rest, cfg), m, 1);
    StepOnce(m);
    if st.Size() + 1 < YYMAXDEPTH {
      ReduceAtom(st, t, rest, cfg);
    } else {
      FullStackDies(m);
    }
  }

  lemma FullStackDies(m: Machine)
    requires m.stack.Size() >= YYMAXDEPTH
    ensures Step(m) == Exhausted
  {
  }

  // ----- compound expressions

  /** The parser with an expression just read on top of the stack. */
  function Done(st: Stack, c: Cst, rest: seq<Token>, cfg: Config): Machine {
    Machine(Push(st, After(st.State()), Tree(Erase(c))), rest, cfg)
  }

  /** An expression may stand here: it binds tightly enough for what is on its left and on its right. */
  predicate Fits(c: Cst, st: Stack, rest: seq<Token>) {
    && Wf(c) && Begins(st.State()) && Required(st.State()) <= Level(c)
    && (Level(c) == 0 ==> NextNumber(rest) != 5 && NextNumber(rest) != 6)
    && st.Size() < YYMAXDEPTH
  }

  lemma PreShiftActs(q: int, op: UnOp)
    requires Begins(q)
    ensures Decide(q, Number(PreToken(op))) == Shift(PreState(op)) && TokenValue(PreToken(op)) == Nothing
        && q != YYFINAL
  {
    hide *;
    BeginActions(q);
    PreNumber(op);
  }

  lemma PreNumber(op: UnOp)
    ensures TokenValue(PreToken(op)) == Nothing
    ensures var n := Number(PreToken(op));
            n in {3, 8, 9} && PreState(op) == if n == 3 then 38 else if n == 8 then 39 else 40
  {
  }

  lemma PreShift(op: UnOp, st: Stack, rest: seq<Token>, cfg: Config)
    requires Begins(st.State()) && st.Size() < YYMAXDEPTH
    ensures Step(Machine(st, [PreToken(op)] + rest, cfg))
        == Running(Machine(Push(st, PreState(op), Nothing), rest, cfg))
  {
    hide *;
    PreShiftActs(st.State(), op);
    ShiftStep(st, PreToken(op), rest, cfg, PreState(op));
  }

  /** The stack of an operand that has been read after a prefix operator. */
  lemma PreTop(op: UnOp, e: Cst, st: Stack, rest: seq<Token>, cfg: Config)
    ensures var m := Done(Push(st, PreState(op), Nothing), e, rest, cfg);
            && m == Machine(m.stack, rest, cfg) && m.stack.Size() == st.Size() + 2 && m.stack.Pop(2) == st
            && m.stack.State() == After(PreState(op)) && m.stack.State() in {48, 49, 50} && YyR2(PreRule(op)) == 2
            && YyR1(PreRule(op)) == 34 && Effect(m.stack, PreRule(op), cfg) == Some(cfg)
            && Reduced(m.stack, PreRule(op)) == Tree(Erase(Pre(op, e)))
    ensures Done(st, Pre(op, e), rest, cfg) == Machine(Push(st, After(st.State()), Tree(Erase(Pre(op, e)))), rest, cfg)
    ensures YYFINAL == 2 && YYMAXDEPTH == 10000
  {
    var a := Push(st, PreState(op), Nothing);
    var s := Done(a, e, rest, cfg).stack;
    TopTwo(st, PreState(op), Nothing, After(PreState(op)), Tree(Erase(e)));
    hide Stack.Pop, Stack.Size, Stack.Peek;
  }

  lemma PreReduce(op: UnOp, e: Cst, st: Stack, rest: seq<Token>, cfg: Config)
    requires Begins(st.State()) && st.Size() + 2 < YYMAXDEPTH
    ensures Step(Done(Push(st, PreState(op), Nothing), e, rest, cfg)) == Running(Done(st, Pre(op, e), rest, cfg))
  {
    hide *;
    BeginGoTo(st.State());
    PreTop(op, e, st, rest, cfg);
    PreReduces(op, NextNumber(rest));
    ReduceStep(Done(Push(st, PreState(op), Nothing), e, rest, cfg).stack, 2, rest, cfg, PreRule(op), st);
  }

  lemma PreReduces(op: UnOp, token: int)
    ensures Decide(After(PreState(op)), token) == Reduce(PreRule(op))
  {
    AtomActions(token);
    hide Decide;
  }

  lemma ParenTokens()
    ensures Number(TOpen) == 22 && TokenValue(TOpen) == Nothing && Number(TClose) == 23 && TokenValue(TClose) == Nothing
    ensures YYFINAL == 2 && YYMAXDEPTH == 10000
  {
  }

  lemma OpenShift(st: Stack, rest: seq<Token>, cfg: Config)
    requires Begins(st.State()) && st.Size() < YYMAXDEPTH
    ensures Step(Machine(st, [TOpen] + rest, cfg)) == Running(Machine(Push(st, 44, Nothing), rest, cfg))
  {
    hide *;
    BeginActions(st.State());
    ParenTokens();
    ShiftStep(st, TOpen, rest, cfg, 44);
  }

  lemma CloseShift(e: Cst, st: Stack, rest: seq<Token>, cfg: Config)
    requires st.Size() + 2 < YYMAXDEPTH
    ensures var s := Push(st, 44, Nothing);
            Step(Done(s, e, [TClose] + rest, cfg))
            == Running(Machine(Push(Push(s, 51, Tree(Erase(e))), 57, Nothing), rest, cfg))
  {
    AtomActions(23);
    hide Decide, Step;
    ShiftStep(Push(Push(st, 44, Nothing), 51, Tree(Erase(e))), TClose, rest, cfg, 57);
  }

  /** The stack with an expression between parentheses on top. */
  function Closed(e: Cst, st: Stack): Stack {
    Push(Push(Push(st, 44, Nothing), 51, Tree(Erase(e))), 57, Nothing)
  }

  lemma ClosedTop(e: Cst, st: Stack, rest: seq<Token>, cfg: Config)
    ensures var s := Closed(e, st);
            && s.Size() == st.Size() + 3 && s.Pop(3) == st && s.State() == 57 && YyR2(27) == 3 && YyR1(27) == 34
            && Effect(s, 27, cfg) == Some(cfg) && Reduced(s, 27) == Tree(Erase(e))
            && s == Push(Push(Push(st, 44, Nothing), 51, Tree(Erase(e))), 57, Nothing)
    ensures Done(st, Paren(e), rest, cfg) == Machine(Push(st, After(st.State()), Tree(Erase(e))), rest, cfg)
  {
    TopThree(st, 44, Nothing, 51, Tree(Erase(e)), 57, Nothing);
    hide Stack.Pop, Stack.Size, Stack.Peek;
  }

  lemma CloseReduce(e: Cst, st: Stack, rest: seq<Token>, cfg: Config)
    requires Begins(st.State()) && st.Size() + 3 < YYMAXDEPTH
    ensures Step(Machine(Push(Push(Push(st, 44, Nothing), 51, Tree(Erase(e))), 57, Nothing), rest, cfg))
         == Running(Done(st, Paren(e), rest, cfg))
  {
    hide *;
    BeginGoTo(st.State());
    AtomActions(NextNumber(rest));
    ParenTokens();
    ClosedTop(e, st, rest, cfg);
    ReduceStep(Closed(e, st), 3, rest, cfg, 27, st);
  }

  lemma OperatorShift(op: BinOp, l: Cst, st: Stack, rest: seq<Token>, cfg: Config)
    requires Begins(st.State()) && Required(st.State()) <= OpLevel(op) && st.Size() + 1 < YYMAXDEPTH
    ensures Step(Done(st, l, [BinToken(op)] + rest, cfg)) == Running(Machine(AfterOperator(op, l, st), rest, cfg))
  {
    OperatorActions(st.State(), op);
    hide Decide, After, Begins, Step;
    ShiftStep(Done(st, l, [], cfg).stack, BinToken(op), rest, cfg, BinState(op));
  }

  lemma TokenRange(rest: seq<Token>)
    ensures 0 <= NextNumber(rest) < 24 && NextNumber(rest) != 1
    ensures NextNumber(rest) == 0 <==> rest == []
  {
    if rest != [] {
      NumberRange(rest[0]);
    }
    hide Number;
  }

  /** The stack of an operand that has been read after an operator. */
  lemma BinTop(op: BinOp, l: Cst, r: Cst, st: Stack, rest: seq<Token>, cfg: Config)
    ensures var m := Done(AfterOperator(op, l, st), r, rest, cfg);
            && m == Machine(m.stack, rest, cfg) && m.stack.Size() == st.Size() + 3 && m.stack.Pop(3) == st
            && m.stack.State() == After(BinState(op)) && m.stack.State() in {58, 59, 60, 61} && YyR2(BinRule(op)) == 3
            && YyR1(BinRule(op)) == 34 && Effect(m.stack, BinRule(op), cfg) == Some(cfg)
            && Reduced(m.stack, BinRule(op)) == Tree(Erase(Bin(op, l, r)))
    ensures Done(st, Bin(op, l, r), rest, cfg)
        == Machine(Push(st, After(st.State()), Tree(Erase(Bin(op, l, r)))), rest, cfg)
    ensures YYFINAL == 2 && YYMAXDEPTH == 10000
  {
    TopThree(st, After(st.State()), Tree(Erase(l)), BinState(op), Nothing, After(BinState(op)), Tree(Erase(r)));
    hide Stack.Pop, Stack.Size, Stack.Peek;
  }

  lemma BinReduce(op: BinOp, l: Cst, r: Cst, st: Stack, rest: seq<Token>, cfg: Config)
    requires Begins(st.State()) && st.Size() + 3 < YYMAXDEPTH
    requires OpLevel(op) == 0 ==> NextNumber(rest) != 5 && NextNumber(rest) != 6
    ensures Step(Done(AfterOperator(op, l, st), r, rest, cfg)) == Running(Done(st, Bin(op, l, r), rest, cfg))
  {
    hide *;
    BeginGoTo(st.State());
    TokenRange(rest);
    OperandActions(op, NextNumber(rest));
    BinTop(op, l, r, st, rest, cfg);
    ReduceStep(Done(AfterOperator(op, l, st), r, rest, cfg).stack, 3, rest, cfg, BinRule(op), st);
  }

  // ----- runs over whole expressions

  lemma FateOfBoth(a: nat, b: nat, m: Machine)
    ensures (if a < YYMAXDEPTH then Fate(b, m) else Exhausted) == Fate(if a < b then b else a, m)
    ensures Fate(b, m) == if b < YYMAXDEPTH then Running(m) else Exhausted
  {
  }

  /** Two stretches in a row; the second is moot if the stack has already overflowed in the first. */
  lemma Chain(m: Machine, a: nat, peak: nat, mid: Machine, b: nat)
    requires Steps(m, a) == Fate(peak, mid)
    ensures Steps(m, a + b) == if peak < YYMAXDEPTH then Steps(mid, b) else Exhausted
  {
    hide Step;
    StepsCompose(m, a, b);
  }

  /** A stretch, and one more step. */
  lemma ChainStep(m: Machine, a: nat, peak: nat, mid: Machine, next: Machine)
    requires Steps(m, a) == Fate(peak, mid)
    requires peak < YYMAXDEPTH ==> Step(mid) == Running(next)
    ensures Steps(m, a + 1) == Fate(peak, next)
  {
    hide Step;
    Chain(m, a, peak, mid, 1);
    StepOnce(mid);
  }

  /** One step onto a higher stack, and a stretch from there. */
  lemma StepChain(m: Machine, next: Machine, b: nat, peak: nat, last: Machine)
    requires Step(m) == Running(next)
    requires next.stack.Size() < YYMAXDEPTH ==> Steps(next, b) == Fate(peak, last)
    requires next.stack.Size() <= peak
    ensures Steps(m, 1 + if next.stack.Size() < YYMAXDEPTH then b else 1) == Fate(peak, last)
  {
    if next.stack.Size() >= YYMAXDEPTH {
      FullStackDies(next);
    }
    hide Step;
    StepOnce(next);
    StepThen(m, next, if next.stack.Size() < YYMAXDEPTH then b else 1);
  }

  /** Reading `c` on top of `st` takes n steps: its tree is on the stack if the stack has room for its
      peak, and the stack has overflowed if not. */
  predicate Reads(c: Cst, st: Stack, rest: seq<Token>, cfg: Config, n: nat) {
    Steps(Machine(st, Yield(c) + rest, cfg), n) == Fate(st.Size() + Peak(c), Done(st, c, rest, cfg))
  }

  lemma ReadsMeans(c: Cst, st: Stack, rest: seq<Token>, cfg: Config, n: nat)
    ensures Reads(c, st, rest, cfg, n)
       <==> Steps(Machine(st, Yield(c) + rest, cfg), n) == Fate(st.Size() + Peak(c), Done(st, c, rest, cfg))
  {
    hide Steps, Yield, Stack.Size, Peak, Done, Fate;
  }

  /** Every expression of the grammar is read where it fits. */
  lemma {:induction false} ParseExpr(c: Cst, st: Stack, rest: seq<Token>, cfg: Config) returns (n: nat)
    requires Fits(c, st, rest)
    ensures Reads(c, st, rest, cfg, n)
    decreases c, 1
  {
    hide *;
    match c
    case Pre(op, e) => n := ParsePre(op, e, st, rest, cfg);
    case Paren(e) => n := ParseParen(e, st, rest, cfg);
    case Bin(op, l, r) => n := ParseBin(op, l, r, st, rest, cfg);
    case _ =>
      ReadAtom(c, st, rest, cfg);
      n := 2;
  }

  lemma ReadAtom(c: Cst, st: Stack, rest: seq<Token>, cfg: Config)
    requires (c.Num? || c.Id? || c.AtSign?) && Fits(c, st, rest)
    ensures Reads(c, st, rest, cfg, 2)
  {
    hide *;
    AtomFits(c, st, rest);
    ParseAtom(c, st, rest, cfg);
    AtomReads(c, st, rest, cfg);
  }

  lemma AtomFits(c: Cst, st: Stack, rest: seq<Token>)
    requires Fits(c, st, rest)
    ensures Begins(st.State()) && st.Size() < YYMAXDEPTH
  {
    hide Begins, Stack.Size, Stack.State;
  }

  lemma AtomReads(c: Cst, st: Stack, rest: seq<Token>, cfg: Config)
    requires c.Num? || c.Id? || c.AtSign?
    requires Steps(Machine(st, Yield(c) + rest, cfg), 2)
          == Fate(st.Size() + 1, Machine(Push(st, After(st.State()), Tree(Erase(c))), rest, cfg))
    ensures Reads(c, st, rest, cfg, 2)
  {
    hide Steps, Yield, Stack.Size, Stack.State, After, Begins, Fate;
  }

  lemma PreParts(op: UnOp, e: Cst, st: Stack, rest: seq<Token>)
    requires Fits(Pre(op, e), st, rest)
    ensures var s := Push(st, PreState(op), Nothing);
            && s.Size() == st.Size() + 1 && (s.Size() < YYMAXDEPTH ==> Fits(e, s, rest))
            && Begins(st.State()) && st.Size() < YYMAXDEPTH
    ensures Yield(Pre(op, e)) + rest == [PreToken(op)] + (Yield(e) + rest)
    ensures Peak(Pre(op, e)) == 1 + Peak(e) > 1
  {
    Associate([PreToken(op)], Yield(e), rest);
  }

  lemma {:induction false} ParsePre(op: UnOp, e: Cst, st: Stack, rest: seq<Token>, cfg: Config) returns (n: nat)
    requires Fits(Pre(op, e), st, rest)
    ensures Reads(Pre(op, e), st, rest, cfg, n)
    decreases Pre(op, e), 0
  {
    hide *;
    PreParts(op, e, st, rest);
    PreShift(op, st, Yield(e) + rest, cfg);
    var s := Push(st, PreState(op), Nothing);
    var k := 0;
    if s.Size() < YYMAXDEPTH {
      k := ParseExpr(e, s, rest, cfg);
    }
    PreTail(op, e, st, rest, cfg, k);
    n := 2 + if s.Size() < YYMAXDEPTH then k else 1;
  }

  lemma PreTail(op: UnOp, e: Cst, st: Stack, rest: seq<Token>, cfg: Config, k: nat)
    requires Fits(Pre(op, e), st, rest)
    requires var s := Push(st, PreState(op), Nothing); s.Size() < YYMAXDEPTH ==> Reads(e, s, rest, cfg, k)
    ensures var s := Push(st, PreState(op), Nothing);
            Reads(Pre(op, e), st, rest, cfg, 2 + if s.Size() < YYMAXDEPTH then k else 1)
  {
    hide *;
    PreParts(op, e, st, rest);
    PreShift(op, st, Yield(e) + rest, cfg);
    var s := Push(st, PreState(op), Nothing);
    ReadsMeans(e, s, rest, cfg, k);
    ReadsMeans(Pre(op, e), st, rest, cfg, 2 + if s.Size() < YYMAXDEPTH then k else 1);
    var top := st.Size() + 1 + Peak(e);
    if top < YYMAXDEPTH {
      PreReduce(op, e, st, rest, cfg);
    }
    var m := Machine(st, Yield(Pre(op, e)) + rest, cfg);
    StepChain(m, Machine(s, Yield(e) + rest, cfg), k, top, Done(s, e, rest, cfg));
    ChainStep(m, 1 + if s.Size() < YYMAXDEPTH then k else 1, top, Done(s, e, rest, cfg),
        Done(st, Pre(op, e), rest, cfg));
  }

  lemma YieldParen(e: Cst, rest: seq<Token>)
    ensures Yield(Paren(e)) + rest == [TOpen] + (Yield(e) + ([TClose] + rest))
  {
    Associate([TOpen], Yield(e) + [TClose], rest);
    Associate(Yield(e), [TClose], rest);
  }

  lemma ParenParts(e: Cst, st: Stack, rest: seq<Token>)
    requires Fits(Paren(e), st, rest)
    ensures var s := Push(st, 44, Nothing);
            && s.Size() == st.Size() + 1 && (s.Size() < YYMAXDEPTH ==> Fits(e, s, [TClose] + rest))
            && Begins(st.State()) && st.Size() < YYMAXDEPTH
            && Push(Push(s, 51, Tree(Erase(e))), 57, Nothing).Size() == st.Size() + 3
    ensures Peak(Paren(e)) == (if Peak(e) < 2 then 3 else 1 + Peak(e)) && Peak(e) > 0
  {
  }

  lemma {:induction false} ParseParen(e: Cst, st: Stack, rest: seq<Token>, cfg: Config) returns (n: nat)
    requires Fits(Paren(e), st, rest)
    ensures Reads(Paren(e), st, rest, cfg, n)
    decreases Paren(e), 0
  {
    hide *;
    ParenParts(e, st, rest);
    var s := Push(st, 44, Nothing);
    var k := 0;
    if s.Size() < YYMAXDEPTH {
      k := ParseExpr(e, s, [TClose] + rest, cfg);
    }
    ParenTail(e, st, rest, cfg, k);
    n := 3 + if s.Size() < YYMAXDEPTH then k else 1;
  }

  lemma ParenTail(e: Cst, st: Stack, rest: seq<Token>, cfg: Config, k: nat)
    requires Fits(Paren(e), st, rest)
    requires var s := Push(st, 44, Nothing); s.Size() < YYMAXDEPTH ==> Reads(e, s, [TClose] + rest, cfg, k)
    ensures var s := Push(st, 44, Nothing);
            Reads(Paren(e), st, rest, cfg, 3 + if s.Size() < YYMAXDEPTH then k else 1)
  {
    hide *;
    ParenParts(e, st, rest);
    YieldParen(e, rest);
    var rest' := [TClose] + rest;
    OpenShift(st, Yield(e) + rest', cfg);
    var s := Push(st, 44, Nothing);
    ReadsMeans(e, s, rest', cfg, k);
    ReadsMeans(Paren(e), st, rest, cfg, 3 + if s.Size() < YYMAXDEPTH then k else 1);
    var top := st.Size() + 1 + Peak(e);
    if top < YYMAXDEPTH {
      CloseShift(e, st, rest, cfg);
    }
    var closed := Machine(Push(Push(s, 51, Tree(Erase(e))), 57, Nothing), rest, cfg);
    if closed.stack.Size() < YYMAXDEPTH {
      CloseReduce(e, st, rest, cfg);
    } else {
      FullStackDies(closed);
    }
    var m := Machine(st, Yield(Paren(e)) + rest, cfg);
    StepChain(m, Machine(s, Yield(e) + rest', cfg), k, top, Done(s, e, rest', cfg));
    var n := 1 + if s.Size() < YYMAXDEPTH then k else 1;
    ChainStep(m, n, top, Done(s, e, rest', cfg), closed);
    Chain(m, n + 1, top, closed, 1);
    StepOnce(closed);
    FateOfBoth(top, closed.stack.Size(), Done(st, Paren(e), rest, cfg));
  }

  lemma YieldBin(op: BinOp, l: Cst, r: Cst, rest: seq<Token>)
    ensures Yield(Bin(op, l, r)) + rest == Yield(l) + ([BinToken(op)] + (Yield(r) + rest))
  {
    Associate(Yield(l), [BinToken(op)] + Yield(r), rest);
    Associate([BinToken(op)], Yield(r), rest);
  }

  /** The stack between the operator and its right operand. */
  function AfterOperator(op: BinOp, l: Cst, st: Stack): Stack {
    Push(Push(st, After(st.State()), Tree(Erase(l))), BinState(op), Nothing)
  }

  lemma BinParts(op: BinOp, l: Cst, r: Cst, st: Stack, rest: seq<Token>)
    requires Fits(Bin(op, l, r), st, rest)
    ensures Fits(l, st, [BinToken(op)] + (Yield(r) + rest))
    ensures var s := AfterOperator(op, l, st);
            && s.Size() == st.Size() + 2 && (s.Size() < YYMAXDEPTH ==> Fits(r, s, rest))
            && Begins(st.State()) && st.Size() < YYMAXDEPTH && Required(st.State()) <= OpLevel(op)
    ensures Peak(Bin(op, l, r)) == (if Peak(l) < 2 + Peak(r) then 2 + Peak(r) else Peak(l)) && Peak(l) > 0
        && Peak(r) > 0
    ensures OpLevel(op) == 0 ==> NextNumber(rest) != 5 && NextNumber(rest) != 6
  {
  }

  lemma {:induction false} ParseBin(op: BinOp, l: Cst, r: Cst, st: Stack, rest: seq<Token>, cfg: Config)
    returns (n: nat)
    requires Fits(Bin(op, l, r), st, rest)
    ensures Reads(Bin(op, l, r), st, rest, cfg, n)
    decreases Bin(op, l, r), 0
  {
    hide *;
    BinParts(op, l, r, st, rest);
    n := ParseExpr(l, st, [BinToken(op)] + (Yield(r) + rest), cfg);
    var s := AfterOperator(op, l, st);
    var k := 0;
    if s.Size() < YYMAXDEPTH {
      k := ParseExpr(r, s, rest, cfg);
    }
    BinTail(op, l, r, st, rest, cfg, n, k);
    n := n + 2 + if s.Size() < YYMAXDEPTH then k else 1;
  }

  /** The right operand of a binary expression, or the overflow just before it. */
  lemma ReadRight(op: BinOp, l: Cst, r: Cst, st: Stack, rest: seq<Token>, cfg: Config, k: nat)
    requires var s := AfterOperator(op, l, st); s.Size() < YYMAXDEPTH ==> Reads(r, s, rest, cfg, k)
    ensures var s := AfterOperator(op, l, st);
            Steps(Machine(s, Yield(r) + rest, cfg), if s.Size() < YYMAXDEPTH then k else 1)
            == Fate(s.Size() + Peak(r), Done(s, r, rest, cfg))
  {
    hide *;
    var s := AfterOperator(op, l, st);
    var m := Machine(s, Yield(r) + rest, cfg);
    FateIs(s.Size() + Peak(r), Done(s, r, rest, cfg));
    if s.Size() >= YYMAXDEPTH {
      FullStackDies(m);
      StepOnce(m);
    } else {
      ReadsMeans(r, s, rest, cfg, k);
    }
  }

  lemma FateIs(size: nat, m: Machine)
    ensures Fate(size, m) == if size < YYMAXDEPTH then Running(m) else Exhausted
  {
  }

  lemma BinTail(op: BinOp, l: Cst, r: Cst, st: Stack, rest: seq<Token>, cfg: Config, n: nat, k: nat)
    requires Fits(Bin(op, l, r), st, rest)
    requires Reads(l, st, [BinToken(op)] + (Yield(r) + rest), cfg, n)
    requires var s := AfterOperator(op, l, st); s.Size() < YYMAXDEPTH ==> Reads(r, s, rest, cfg, k)
    ensures var s := AfterOperator(op, l, st);
            Reads(Bin(op, l, r), st, rest, cfg, n + 2 + if s.Size() < YYMAXDEPTH then k else 1)
  {
    hide *;
    BinParts(op, l, r, st, rest);
    YieldBin(op, l, r, rest);
    ReadRight(op, l, r, st, rest, cfg, k);
    var rest' := [BinToken(op)] + (Yield(r) + rest);
    var m := Machine(st, Yield(l) + rest', cfg);
    var top1, top2 := st.Size() + Peak(l), st.Size() + 2 + Peak(r);
    var s := AfterOperator(op, l, st);
    ReadsMeans(l, st, rest', cfg, n);
    ReadsMeans(Bin(op, l, r), st, rest, cfg, n + 2 + if s.Size() < YYMAXDEPTH then k else 1);
    var mid := Machine(s, Yield(r) + rest, cfg);
    var right := Done(s, r, rest, cfg);
    if top1 < YYMAXDEPTH {
      OperatorShift(op, l, st, Yield(r) + rest, cfg);
    }
    var top := if top1 < top2 then top2 else top1;
    if top < YYMAXDEPTH {
      BinReduce(op, l, r, st, rest, cfg);
    }
    var k' := if s.Size() < YYMAXDEPTH then k else 1;
    ChainStep(m, n, top1, Done(st, l, rest', cfg), mid);
    Chain(m, n + 1, top1, mid, k');
    FateOfBoth(top1, top2, right);
    ChainStep(m, n + 1 + k', top, right, Done(st, Bin(op, l, r), rest, cfg));
  }
}
