/** The table-driven parser of sensor configuration files: the loop of `yyparse`
    (arm/gator-daemon/libsensors/conf-parse.c:1326-1826) over a sequence of tokens.

    `Step` is one trip from `yysetstate` to the next push of a state; `YyParse` is the loop with its two
    stacks. Parsing stops at the first syntax error. Bus ids and chip names are kept as written. */
module ConfParse {
  import opened Basics
  import opened ConfTables
  import opened SensorExpr

  datatype Token =
    | TMinus | TPlus | TTimes | TSlash | TCaret | TBackquote | TComma | TEol
    | TBus | TLabel | TSet | TChip | TCompute | TIgnore
    | TFloat(value: real) | TName(text: string) | TError | TAt | TOpen | TClose

  /** The internal token number; the end of input is 0. */
  function Number(t: Token): int {
    match t
    case TMinus => 3 case TPlus => 4 case TTimes => 5 case TSlash => 6 case TCaret => 8 case TBackquote => 9
    case TComma => 10 case TEol => 11 case TBus => 12 case TLabel => 13 case TSet => 14 case TChip => 15
    case TCompute => 16 case TIgnore => 17 case TFloat(_) => 18 case TName(_) => 19 case TError => 20
    case TAt => 21 case TOpen => 22 case TClose => 23
  }

  /** YYSTYPE, as far as the actions use it. */
  datatype Value = Nothing | Numeral(number: real) | Text(text: string) | Names(names: seq<string>) | Tree(expr: Expr)
  {
    function AsText(): string { if Text? then text else "" }
    function AsNames(): seq<string> { if Names? then names else [] }
    function AsTree(): Expr { if Tree? then expr else Source }
  }

  function TokenValue(t: Token): Value {
    match t
    case TFloat(v) => Numeral(v)
    case TName(s) => Text(s)
    case _ => Nothing
  }

  /** The two stacks in step: every entry has a state and a value. The bottom entry is state 0 with the
      value that is never initialised. */
  datatype Stack = Bottom | Push(below: Stack, top: int, value: Value)
  {
    function State(): int {
      if Bottom? then 0 else top
    }

    /** $k of a rule whose right-hand side ends i entries below the top. */
    function Peek(i: nat): Value
      decreases i
    {
      if Bottom? then Nothing else if i == 0 then value else below.Peek(i - 1)
    }

    function Pop(n: nat): Stack
      decreases n
    {
      if n == 0 || Bottom? then this else below.Pop(n - 1)
    }

    /** The number of entries in use, the bottom one included. */
    function Size(): nat {
      if Bottom? then 1 else below.Size() + 1
    }
  }

  // The entries within reach of a rule, spelled out.

  lemma TopTwo(b: Stack, s1: int, v1: Value, s2: int, v2: Value)
    ensures var s := Push(Push(b, s1, v1), s2, v2);
            && s.Pop(2) == b && s.Pop(1) == Push(b, s1, v1) && s.Peek(0) == v2 && s.Peek(1) == v1
            && s.Size() == b.Size() + 2
  {
    var a := Push(b, s1, v1);
    var s := Push(a, s2, v2);
    assert a.Pop(1) == b.Pop(0) == b && s.Pop(2) == a.Pop(1) && a.Peek(0) == v1 && s.Peek(1) == a.Peek(0);
  }

  lemma TopThree(b: Stack, s1: int, v1: Value, s2: int, v2: Value, s3: int, v3: Value)
    ensures var s := Push(Push(Push(b, s1, v1), s2, v2), s3, v3);
            && s.Pop(3) == b && s.Peek(0) == v3 && s.Peek(1) == v2 && s.Peek(2) == v1
            && s.Size() == b.Size() + 3
  {
    var a := Push(b, s1, v1);
    var c := Push(a, s2, v2);
    var s := Push(c, s3, v3);
    assert c.Size() == a.Size() + 1 && a.Size() == b.Size() + 1;
    assert a.Pop(1) == b.Pop(0) == b && c.Pop(2) == a.Pop(1) && s.Pop(3) == c.Pop(2);
    assert a.Peek(0) == v1 && c.Peek(1) == a.Peek(0) && s.Peek(2) == c.Peek(1) && s.Peek(1) == c.Peek(0);
  }

  lemma TopFive(b: Stack, s1: int, v1: Value, s2: int, v2: Value, s3: int, v3: Value, s4: int, v4: Value, s5: int,
      v5: Value)
    ensures var s := Push(Push(Push(Push(Push(b, s1, v1), s2, v2), s3, v3), s4, v4), s5, v5);
            && s.Pop(5) == b && s.Peek(0) == v5 && s.Peek(2) == v3 && s.Peek(3) == v2 && s.Peek(4) == v1
            && s.Size() == b.Size() + 5
  {
    TopThree(b, s1, v1, s2, v2, s3, v3);
    var a := Push(Push(Push(b, s1, v1), s2, v2), s3, v3);
    var d := Push(a, s4, v4);
    var s := Push(d, s5, v5);
    assert d.Pop(4) == a.Pop(3) && s.Pop(5) == d.Pop(4);
    assert d.Peek(1) == a.Peek(0) && d.Peek(2) == a.Peek(1) && d.Peek(3) == a.Peek(2);
    assert s.Peek(2) == d.Peek(1) && s.Peek(3) == d.Peek(2) && s.Peek(4) == d.Peek(3);
    assert s.Size() == d.Size() + 1 == a.Size() + 2;
  }

  datatype Machine = Machine(stack: Stack, input: seq<Token>, config: Config)

  datatype Outcome = Running(machine: Machine) | Accepted(config: Config) | SyntaxError | Exhausted

  datatype Action = Shift(state: int) | Reduce(rule: int) | Fail

  /** `yybackup` and `yydefault`: what to do in a state, given the number of the next token. */
  function Decide(state: int, token: int): Action {
    var n := YyPact(state);
    if n == YYPACT_NINF then Default(state)
    else
      var i := n + token;
      if i < 0 || YYLAST < i || YyCheck(i) != token then Default(state)
      else if YyTable(i) <= 0 then Reduce(-YyTable(i))
      else Shift(YyTable(i))
  }

  function Default(state: int): Action {
    if YyDefAct(state) == 0 then Fail else Reduce(YyDefAct(state))
  }

  /** Where to go from a state after reducing to a symbol. */
  function GoTo(state: int, symbol: int): int {
    var i := YyPGoto(symbol - YYNTOKENS) + state;
    if 0 <= i <= YYLAST && YyCheck(i) == state then YyTable(i) else YyDefGoto(symbol - YYNTOKENS)
  }

  function NextNumber(input: seq<Token>): int {
    if input == [] then 0 else Number(input[0])
  }

  /** The value an action computes ($$); rules with other effects default to $1. */
  function Reduced(s: Stack, rule: int): Value {
    match rule
    case 17 => Names([s.Peek(0).AsText()])
    case 18 => Names(s.Peek(1).AsNames() + [s.Peek(0).AsText()])
    case 19 => Tree(Val(if s.Peek(0).Numeral? then s.Peek(0).number else 0.0))
    case 20 => Tree(Var(s.Peek(0).AsText()))
    case 21 => Tree(Source)
    case 22 => Tree(Binary(Add, s.Peek(2).AsTree(), s.Peek(0).AsTree()))
    case 23 => Tree(Binary(Subtract, s.Peek(2).AsTree(), s.Peek(0).AsTree()))
    case 24 => Tree(Binary(Multiply, s.Peek(2).AsTree(), s.Peek(0).AsTree()))
    case 25 => Tree(Binary(Divide, s.Peek(2).AsTree(), s.Peek(0).AsTree()))
    case 26 => Tree(Unary(Negate, s.Peek(0).AsTree()))
    case 27 => s.Peek(1)
    case 28 => Tree(Unary(Exp, s.Peek(0).AsTree()))
    case 29 => Tree(Unary(Log, s.Peek(0).AsTree()))
    case _ => if YyR2(rule) <= 0 then Nothing else s.Peek(YyR2(rule) - 1)
  }

  /** A label, set, compute or ignore statement goes to the last chip section; before the first one it is
      an error. */
  function ToCurrentChip(c: Config, f: Chip -> Chip): Option<Config> {
    if c.chips == [] then None
    else
      var last := |c.chips| - 1;
      Some(c.(chips := c.chips[last := f(c.chips[last])]))
  }

  function AddBus(c: Config, bus: string, adapter: string): Config {
    c.(busses := c.busses + [Bus(bus, adapter)])
  }

  function AddLabel(c: Config, name: string, value: string): Option<Config> {
    ToCurrentChip(c, (ch: Chip) => ch.(labels := ch.labels + [Label(name, value)]))
  }

  function AddSet(c: Config, name: string, value: Expr): Option<Config> {
    ToCurrentChip(c, (ch: Chip) => ch.(sets := ch.sets + [Setting(name, value)]))
  }

  function AddCompute(c: Config, name: string, fromProc: Expr, toProc: Expr): Option<Config> {
    ToCurrentChip(c, (ch: Chip) => ch.(computes := ch.computes + [Compute(name, fromProc, toProc)]))
  }

  function AddIgnore(c: Config, name: string): Option<Config> {
    ToCurrentChip(c, (ch: Chip) => ch.(ignores := ch.ignores + [name]))
  }

  function AddChip(c: Config, names: seq<string>): Config {
    c.(chips := c.chips + [Chip(names, [], [], [], [])])
  }

  /** The effect of an action on the configuration; None is YYERROR. */
  function Effect(s: Stack, rule: int, c: Config): Option<Config> {
    match rule
    case 11 => Some(AddBus(c, s.Peek(1).AsText(), s.Peek(0).AsText()))
    case 12 => AddLabel(c, s.Peek(1).AsText(), s.Peek(0).AsText())
    case 13 => AddSet(c, s.Peek(1).AsText(), s.Peek(0).AsTree())
    case 14 => AddCompute(c, s.Peek(3).AsText(), s.Peek(2).AsTree(), s.Peek(0).AsTree())
    case 15 => AddIgnore(c, s.Peek(0).AsText())
    case 16 => Some(AddChip(c, s.Peek(0).AsNames()))
    case _ => Some(c)
  }

  function DoReduce(m: Machine, rule: int): Outcome {
    match Effect(m.stack, rule, m.config)
    case None => SyntaxError
    case Some(config) =>
      var below := m.stack.Pop(if YyR2(rule) < 0 then 0 else YyR2(rule));
      Running(Machine(Push(below, GoTo(below.State(), YyR1(rule)), Reduced(m.stack, rule)), m.input, config))
  }

  function DoShift(m: Machine, state: int): Outcome {
    if m.input == [] then Running(m.(stack := Push(m.stack, state, Nothing)))
    else Running(Machine(Push(m.stack, state, TokenValue(m.input[0])), m.input[1..], m.config))
  }

  function Step(m: Machine): Outcome {
    if m.stack.Size() >= YYMAXDEPTH then Exhausted
    else if m.stack.State() == YYFINAL then Accepted(m.config)
    else
      match Decide(m.stack.State(), NextNumber(m.input))
      case Fail => SyntaxError
      case Shift(state) => DoShift(m, state)
      case Reduce(rule) => DoReduce(m, rule)
  }

  /** The outcome of n steps, or of fewer if the parser has stopped. */
  function Steps(m: Machine, n: nat): Outcome
    decreases n
  {
    if n == 0 then Running(m)
    else
      match Step(m)
      case Running(next) => Steps(next, n - 1)
      case o => o
  }

  lemma {:induction false} StepsCompose(m: Machine, a: nat, b: nat)
    ensures Steps(m, a + b) == match Steps(m, a) case Running(mid) => Steps(mid, b) case o => o
    decreases a
  {
    hide Step;
    if a > 0 && Step(m).Running? {
      StepsCompose(Step(m).machine, a - 1, b);
    }
  }

  function Start(tokens: seq<Token>): Machine {
    Machine(Bottom, tokens, Config([], []))
  }

  /** The parser comes to the given end on these tokens. */
  ghost predicate Ends(tokens: seq<Token>, o: Outcome) {
    !o.Running? && exists n: nat :: Steps(Start(tokens), n) == o
  }

  /** There is at most one end. */
  lemma EndIsUnique(tokens: seq<Token>, a: Outcome, b: Outcome)
    requires Ends(tokens, a) && Ends(tokens, b)
    ensures a == b
  {
    hide Step, Start;
    var i: nat :| Steps(Start(tokens), i) == a;
    var j: nat :| Steps(Start(tokens), j) == b;
    if i <= j {
      StepsCompose(Start(tokens), i, j - i);
    } else {
      StepsCompose(Start(tokens), j, i - j);
    }
  }
}
